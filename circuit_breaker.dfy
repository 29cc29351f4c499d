/** The circuit breaker built by CircuitBreaker.Create: a wrapped action that
    records failures in a sliding time window, trips to Open when too many fall
    inside it, rejects calls while Open, and probes again once the reset
    timeout has expired. Instants and durations are ticks (module Time); the
    clock reading of each call is its `now` parameter. */
module CircuitBreaker {
  import opened Outcomes
  import opened Time
  import opened BreakerStates

  /** The parts of CircuitBreakerConfig that Create reads. `threshold` is
      Threashold, `window` is ThreasholdWindow and `hasTimeoutExpired` is
      HasTimeoutExpired, applied to the time elapsed since the last error. */
  datatype Config = Config(
    initialState: CircuitBreakerStates,
    threshold: int,
    window: int,
    hasTimeoutExpired: int -> bool)

  /** A new CircuitBreakerConfig: Closed, threshold 0, a two-second window and
      a reset timeout that expires strictly after five seconds. */
  function DefaultConfig(): (c: Config)
    ensures c.initialState == Closed && c.threshold == 0 && c.window == Seconds(2)
    ensures forall elapsed :: c.hasTimeoutExpired(elapsed) <==> elapsed > Seconds(5)
    // With no error recorded the elapsed time is zero, which never expires.
    ensures !c.hasTimeoutExpired(0)
  {
    Config(Closed, 0, Seconds(2), elapsed => elapsed > Seconds(5))
  }

  /** The state captured by the closure: the current state, the instant of
      the last error, and every error instant recorded so far, oldest first. */
  datatype Snapshot = Snapshot(
    state: CircuitBreakerStates,
    lastError: Option<int>,
    errorStamps: seq<int>)

  /** How one call of the wrapped action ends for its caller: the action's own
      completion, a CircuitOpenException without invoking the action, or the
      ArgumentOutOfRangeException that computing the start of the window
      raises, in place of the action's failure, when that start is not a
      representable DateTime. */
  datatype Reply<+E> = Completed(completion: Completion<E>) | CircuitOpen | WindowOutOfRange

  /** What one call answers and the captured state it leaves behind. */
  datatype Effect<+E> = Effect(reply: Reply<E>, after: Snapshot)

  /** The number of error instants strictly after `bound`. */
  function CountNewer(stamps: seq<int>, bound: int): (n: nat)
    ensures n <= |stamps|
    ensures n == 0 <==> forall i :: 0 <= i < |stamps| ==> stamps[i] <= bound
    ensures n == |stamps| <==> forall i :: 0 <= i < |stamps| ==> stamps[i] > bound
  {
    if stamps == [] then 0
    else
      var rest := CountNewer(stamps[1..], bound);
      assert forall i :: 1 <= i < |stamps| ==> stamps[i] == stamps[1..][i - 1];
      (if stamps[0] > bound then 1 else 0) + rest
  }

  /** Recording one more instant adds one to the count exactly when that
      instant is itself inside the window. */
  lemma {:induction false} CountNewerAppend(stamps: seq<int>, x: int, bound: int)
    ensures CountNewer(stamps + [x], bound) == CountNewer(stamps, bound) + (if x > bound then 1 else 0)
  {
    if stamps != [] {
      assert (stamps + [x])[1..] == stamps[1..] + [x];
      CountNewerAppend(stamps[1..], x, bound);
    }
  }

  /** The time since the last error, zero when none was recorded. */
  function Elapsed(s: Snapshot, now: int): (elapsed: int)
    ensures s.lastError.None? ==> elapsed == 0
    ensures s.lastError.Some? ==> s.lastError.value + elapsed == now
  {
    if s.lastError.Some? then now - s.lastError.value else 0
  }

  /** One call of the wrapped action at instant `now`, where `outcome` is what
      the action does if it is invoked. */
  function Step<E>(c: Config, s: Snapshot, now: int, outcome: Outcome<E>): (r: Effect<E>)
    // The action is skipped exactly when the breaker is Open and the reset
    // timeout has not expired; a skipped call changes nothing.
    ensures r.reply.CircuitOpen? <==> s.state == Open && !c.hasTimeoutExpired(Elapsed(s, now))
    ensures r.reply.CircuitOpen? ==> r.after == s
    // An invoked action's success returns and its failure is rethrown as is.
    ensures r.reply.Completed? ==> r.reply.completion == PassThrough(outcome)
    // A failure in Closed whose window would start outside the DateTime range
    // raises the range error instead of rethrowing, and never trips.
    ensures r.reply.WindowOutOfRange? <==> s.state == Closed && outcome.Failed? && !InDateRange(now - c.window)
    ensures r.reply.WindowOutOfRange? ==> r.after.state == Closed
    // Every invoked failure records `now` as the last error ...
    ensures r.after.lastError == if !r.reply.CircuitOpen? && outcome.Failed? then Some(now) else s.lastError
    // ... but only a failure in Closed appends it to the error instants.
    ensures r.after.errorStamps == if s.state == Closed && outcome.Failed? then s.errorStamps + [now] else s.errorStamps
    // A failure in Closed trips exactly when the window holds more errors
    // than the threshold, counting the new one; a failed probe always trips.
    ensures s.state == Closed && outcome.Failed? ==>
      (r.after.state == Open <==> InDateRange(now - c.window) && CountNewer(r.after.errorStamps, now - c.window) > c.threshold)
    ensures s.state == PartiallyOpen && outcome.Failed? ==> r.after.state == Open
    // Successes never trip; Closed is only reached by a successful probe and
    // PartiallyOpen only by a success after the timeout.
    ensures outcome.Succeeded? && s.state != Open ==> r.after.state == Closed
    ensures r.after.state == PartiallyOpen <==> s.state == Open && r.reply == Completed(Returned)
    ensures s.state == Open ==> r.after.state != Closed
  {
    match s.state
    case Closed =>
      if outcome.Succeeded? then Effect(Completed(Returned), s)
      else
        var stamps := s.errorStamps + [now];
        if !InDateRange(now - c.window) then Effect(WindowOutOfRange, Snapshot(Closed, Some(now), stamps))
        else
          var errorsInWindow := CountNewer(stamps, now - c.window);
          Effect(Completed(Threw(outcome.error)),
                 Snapshot(if errorsInWindow > c.threshold then Open else Closed, Some(now), stamps))
    case Open =>
      if c.hasTimeoutExpired(Elapsed(s, now)) then
        if outcome.Succeeded? then Effect(Completed(Returned), s.(state := PartiallyOpen))
        else Effect(Completed(Threw(outcome.error)), s.(lastError := Some(now)))
      else Effect(CircuitOpen, s)
    case PartiallyOpen =>
      if outcome.Succeeded? then Effect(Completed(Returned), s.(state := Closed))
      else Effect(Completed(Threw(outcome.error)), s.(state := Open, lastError := Some(now)))
  }

  /** A failure in Closed trips the breaker exactly when the window starts at
      a representable DateTime and the errors already inside the window, plus
      the new one, exceed the threshold (for a positive window, which always
      holds the instant just recorded). */
  lemma ClosedFailureTrips<E>(c: Config, s: Snapshot, now: int, e: E)
    requires s.state == Closed && c.window > 0
    ensures Step(c, s, now, Failed(e)).after.state == Open <==>
      InDateRange(now - c.window) && CountNewer(s.errorStamps, now - c.window) + 1 > c.threshold
  {
    CountNewerAppend(s.errorStamps, now, now - c.window);
  }

  /** Every state change of one call is one of the guarded transitions of
      CircuitBreakerState: a trip from Closed, an attempted reset from Open,
      and a reset or a trip from PartiallyOpen. */
  lemma StepFollowsStateMachine<E>(c: Config, s: Snapshot, now: int, outcome: Outcome<E>)
    ensures var t := Step(c, s, now, outcome).after.state;
      && (s.state == Closed ==> t == Closed || t == Tripped(Closed))
      && (s.state == Open ==> t == Open || t == ResetAttempted(Open))
      && (s.state == PartiallyOpen ==> t == if outcome.Succeeded? then ResetDone(PartiallyOpen) else Tripped(PartiallyOpen))
  {
  }

  /** One call in a sequence: the clock reading and what the action does. */
  datatype Invocation<+E> = Invocation(now: int, outcome: Outcome<E>)

  /** The replies to a sequence of calls and the state they leave. */
  datatype History<+E> = History(final: Snapshot, replies: seq<Reply<E>>)

  /** Calls the wrapped action once per invocation, in order. */
  function Replay<E>(c: Config, s: Snapshot, calls: seq<Invocation<E>>): (h: History<E>)
    ensures |h.replies| == |calls|
    decreases |calls|
  {
    if calls == [] then History(s, [])
    else
      var first := Step(c, s, calls[0].now, calls[0].outcome);
      var rest := Replay(c, first.after, calls[1..]);
      History(rest.final, [first.reply] + rest.replies)
  }

  /** The number of invocations whose action fails. */
  function FailureCount<E>(calls: seq<Invocation<E>>): (n: nat)
    ensures n <= |calls|
  {
    if calls == [] then 0
    else (if calls[0].outcome.Failed? then 1 else 0) + FailureCount(calls[1..])
  }

  /** The error instants are append-only: a sequence of calls keeps the old
      ones as a prefix and adds at most one per failure. */
  lemma {:induction false} ReplayOnlyAppendsStamps<E>(c: Config, s: Snapshot, calls: seq<Invocation<E>>)
    ensures var stamps := Replay(c, s, calls).final.errorStamps;
      && s.errorStamps <= stamps
      && |stamps| <= |s.errorStamps| + FailureCount(calls)
    decreases |calls|
  {
    if calls != [] {
      var first := Step(c, s, calls[0].now, calls[0].outcome);
      ReplayOnlyAppendsStamps(c, first.after, calls[1..]);
    }
  }

  /** A Closed breaker that sees no more failures than its threshold, counting
      the ones already recorded, stays Closed and invokes the action on every
      call. */
  lemma {:induction false} FewFailuresStayClosed<E>(c: Config, s: Snapshot, calls: seq<Invocation<E>>)
    requires s.state == Closed
    requires |s.errorStamps| + FailureCount(calls) <= c.threshold
    ensures Replay(c, s, calls).final.state == Closed
    ensures forall i :: 0 <= i < |calls| ==> !Replay(c, s, calls).replies[i].CircuitOpen?
    decreases |calls|
  {
    if calls != [] {
      var first := Step(c, s, calls[0].now, calls[0].outcome);
      assert first.after.state == Closed;
      FewFailuresStayClosed(c, first.after, calls[1..]);
      var h := Replay(c, s, calls);
      forall i | 0 <= i < |calls|
        ensures !h.replies[i].CircuitOpen?
      {
        if i > 0 {
          assert h.replies[i] == Replay(c, first.after, calls[1..]).replies[i - 1];
        }
      }
    }
  }

  /** While the reset timeout has not expired, an Open breaker rejects every
      call without invoking the action and keeps its state. */
  lemma {:induction false} OpenRejectsUntilTimeout<E>(c: Config, s: Snapshot, calls: seq<Invocation<E>>)
    requires s.state == Open
    requires forall i :: 0 <= i < |calls| ==> !c.hasTimeoutExpired(Elapsed(s, calls[i].now))
    ensures Replay(c, s, calls) == History(s, seq(|calls|, i => CircuitOpen))
    decreases |calls|
  {
    if calls != [] {
      assert !c.hasTimeoutExpired(Elapsed(s, calls[0].now));
      OpenRejectsUntilTimeout(c, s, calls[1..]);
      assert seq<Reply<E>>(|calls|, i => CircuitOpen) == [CircuitOpen] + seq<Reply<E>>(|calls| - 1, i => CircuitOpen);
    }
  }

  /** An Open breaker with no recorded error, under a timeout predicate that
      does not accept zero (the default's does not), rejects every call. */
  lemma OpenWithoutErrorRejectsForever<E>(c: Config, s: Snapshot, calls: seq<Invocation<E>>)
    requires s.state == Open && s.lastError.None?
    requires !c.hasTimeoutExpired(0)
    ensures Replay(c, s, calls) == History(s, seq(|calls|, i => CircuitOpen))
  {
    OpenRejectsUntilTimeout(c, s, calls);
  }

  /** 2016-08-12 15:00:00 in ticks: the instant the timeline below starts at. */
  const TimelineStart: int := 636_066_108_000_000_000

  /** The timeline of calls at 0, 1, 2, 7 and 8 seconds after TimelineStart
      (success, three failures, success) against a breaker with threshold 1,
      a five-second window and the default reset timeout. The strict
      comparisons decide it: the failure at 1s leaves the breaker Closed, the
      one at 2s is rethrown and trips it, the call at 7s is rejected because
      exactly five seconds have elapsed, and the success at 8s is a probe
      that leaves it PartiallyOpen. */
  lemma StrictComparisonsTimeline()
    ensures var c := Config(Closed, 1, Seconds(5), DefaultConfig().hasTimeoutExpired);
      var calls := [Invocation(TimelineStart, Succeeded),
                    Invocation(TimelineStart + Seconds(1), Failed("argument")),
                    Invocation(TimelineStart + Seconds(2), Failed("argument")),
                    Invocation(TimelineStart + Seconds(7), Failed("argument")),
                    Invocation(TimelineStart + Seconds(8), Succeeded)];
      var h := Replay(c, Snapshot(Closed, None, []), calls);
      && h.replies == [Completed(Returned), Completed(Threw("argument")), Completed(Threw("argument")),
                       CircuitOpen, Completed(Returned)]
      && h.final == Snapshot(PartiallyOpen, Some(TimelineStart + Seconds(2)),
                             [TimelineStart + Seconds(1), TimelineStart + Seconds(2)])
  {
    var c := Config(Closed, 1, Seconds(5), DefaultConfig().hasTimeoutExpired);
    var t1, t2 := TimelineStart + Seconds(1), TimelineStart + Seconds(2);
    var s0 := Snapshot(Closed, None, []);
    var s2 := Snapshot(Closed, Some(t1), [t1]);
    var s3 := Snapshot(Open, Some(t2), [t1, t2]);
    var s5 := s3.(state := PartiallyOpen);
    var calls := [Invocation(TimelineStart, Succeeded), Invocation(t1, Failed("argument")),
                  Invocation(t2, Failed("argument")), Invocation(TimelineStart + Seconds(7), Failed("argument")),
                  Invocation(TimelineStart + Seconds(8), Succeeded)];
    assert Replay(c, s3, calls[3..]) == History(s5, [CircuitOpen, Completed(Returned)]) by {
      assert Step(c, s3, calls[3].now, calls[3].outcome) == Effect(CircuitOpen, s3);
      assert Step(c, s3, calls[4].now, calls[4].outcome) == Effect(Completed(Returned), s5);
      assert calls[3..][1..] == calls[4..] && calls[4..][1..] == [];
      assert Replay(c, s5, calls[4..][1..]) == History(s5, []);
      assert Replay(c, s3, calls[4..]) == History(s5, [Completed(Returned)]);
    }
    assert Replay(c, s2, calls[2..]) == History(s5, [Completed(Threw("argument")), CircuitOpen, Completed(Returned)]) by {
      CountNewerAppend([t1], t2, t2 - c.window);
      assert Step(c, s2, calls[2].now, calls[2].outcome) == Effect(Completed(Threw("argument")), s3);
      assert calls[2..][1..] == calls[3..];
    }
    assert Replay(c, s0, calls[1..]) == History(s5, [Completed(Threw("argument")), Completed(Threw("argument")),
                                                       CircuitOpen, Completed(Returned)]) by {
      assert Step(c, s0, calls[1].now, calls[1].outcome) == Effect(Completed(Threw("argument")), s2);
      assert calls[1..][1..] == calls[2..];
    }
    assert Step(c, s0, calls[0].now, calls[0].outcome) == Effect(Completed(Returned), s0);
  }

  /** The breaker as a mutable object: the closure returned by Create and the
      variables it captures. */
  class Breaker {
    const config: Config
    var state: CircuitBreakerStates
    var lastError: Option<int>
    var errorStamps: seq<int>

    /** The captured variables as one value: the abstraction that relates
        this object to `Step`. */
    function Current(): Snapshot
      reads this
    {
      Snapshot(state, lastError, errorStamps)
    }

    /** CircuitBreaker.Create: starts in the configured initial state with no
        error recorded. */
    constructor Create(config: Config)
      ensures this.config == config
      ensures state == config.initialState && lastError == None && errorStamps == []
    {
      this.config := config;
      state := config.initialState;
      lastError := None;
      errorStamps := [];
    }

    /** Invokes the wrapped closure once at instant `now`; `outcome` is what
        the action does if it runs. Reports whether the action was invoked. */
    method Call<E>(now: int, outcome: Outcome<E>) returns (reply: Reply<E>, invoked: bool)
      modifies this
      ensures invoked <==> !reply.CircuitOpen?
      ensures Effect(reply, Current()) == Step(config, old(Current()), now, outcome)
    {
      if state == Closed {
        invoked := true;
        match outcome {
          case Succeeded =>
            reply := Completed(Returned);
          case Failed(e) =>
            errorStamps := errorStamps + [now];
            lastError := Some(now);
            var threasholdStamp := now - config.window;
            if !InDateRange(threasholdStamp) {
              reply := WindowOutOfRange;
            } else {
              var errorsInWindow := CountNewer(errorStamps, threasholdStamp);
              if errorsInWindow > config.threshold {
                state := Open;
              }
              reply := Completed(Threw(e));
            }
        }
      } else if state == Open {
        var elapsed := if lastError.Some? then now - lastError.value else 0;
        if config.hasTimeoutExpired(elapsed) {
          invoked := true;
          match outcome {
            case Succeeded =>
              state := PartiallyOpen;
              reply := Completed(Returned);
            case Failed(e) =>
              lastError := Some(now);
              reply := Completed(Threw(e));
          }
        } else {
          invoked := false;
          reply := CircuitOpen;
        }
      } else {
        invoked := true;
        match outcome {
          case Succeeded =>
            state := Closed;
            reply := Completed(Returned);
          case Failed(e) =>
            lastError := Some(now);
            state := Open;
            reply := Completed(Threw(e));
        }
      }
    }
  }

  /** The unit scenarios: a success in Closed, a failure below and above the
      threshold, an Open breaker before its timeout, and a probe that
      succeeds or fails. */
  method BreakerScenarios()
  {
    var now := TimelineStart;
    var b := new Breaker.Create(DefaultConfig());
    var reply, invoked := b.Call<string>(now, Succeeded);
    assert invoked && reply == Completed(Returned) && b.state == Closed;

    b := new Breaker.Create(DefaultConfig().(threshold := 5));
    reply, invoked := b.Call(now, Failed("not supported"));
    assert reply == Completed(Threw("not supported")) && b.state == Closed;

    b := new Breaker.Create(DefaultConfig());
    reply, invoked := b.Call(now, Failed("not supported"));
    assert reply == Completed(Threw("not supported")) && b.state == Open;

    b := new Breaker.Create(DefaultConfig().(initialState := Open));
    reply, invoked := b.Call<string>(now, Succeeded);
    assert !invoked && reply == CircuitOpen && b.state == Open;

    b := new Breaker.Create(DefaultConfig().(initialState := PartiallyOpen));
    reply, invoked := b.Call<string>(now, Succeeded);
    assert reply == Completed(Returned) && b.state == Closed;

    b := new Breaker.Create(DefaultConfig().(initialState := PartiallyOpen));
    reply, invoked := b.Call(now, Failed("not supported"));
    assert reply == Completed(Threw("not supported")) && b.state == Open;
  }

  /** A window reaching before DateTime.MinValue: the failure is recorded,
      the range error replaces it, and the breaker does not trip. */
  method WindowOutOfRangeScenario()
  {
    var b := new Breaker.Create(DefaultConfig());
    var reply, invoked := b.Call(Seconds(1), Failed("not supported"));
    assert reply == WindowOutOfRange && b.state == Closed;
    assert b.lastError == Some(Seconds(1)) && b.errorStamps == [Seconds(1)];
  }
}
