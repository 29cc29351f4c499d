/** The three-state machine of a circuit breaker and its guarded transitions. */
module BreakerStates {

  /** The states a breaker can be in. */
  datatype CircuitBreakerStates = Closed | PartiallyOpen | Open

  /** The state after `Trip()`: Closed and PartiallyOpen move to Open. */
  function Tripped(s: CircuitBreakerStates): (r: CircuitBreakerStates)
    ensures r == Open
  {
    if s.Closed? || s.PartiallyOpen? then Open else s
  }

  /** The state after `AttemptReset()`: only Open moves, to PartiallyOpen. */
  function ResetAttempted(s: CircuitBreakerStates): (r: CircuitBreakerStates)
    ensures r != Open
    ensures r == Closed <==> s == Closed
  {
    if s == Open then PartiallyOpen else s
  }

  /** The state after `Reset()`: Open and PartiallyOpen move to Closed. */
  function ResetDone(s: CircuitBreakerStates): (r: CircuitBreakerStates)
    ensures r == Closed
  {
    if s.Open? || s.PartiallyOpen? then Closed else s
  }

  /** Applying a transition a second time changes nothing. */
  lemma TransitionsIdempotent(s: CircuitBreakerStates)
    ensures Tripped(Tripped(s)) == Tripped(s)
    ensures ResetAttempted(ResetAttempted(s)) == ResetAttempted(s)
    ensures ResetDone(ResetDone(s)) == ResetDone(s)
  {
  }

  /** A standalone holder of the current state, changed only through the
      guarded transitions. */
  class CircuitBreakerState {
    var currentState: CircuitBreakerStates

    constructor ()
      ensures currentState == Closed
    {
      currentState := Closed;
    }

    predicate IsOpen()
      reads this
    {
      currentState == Open
    }

    predicate IsClosed()
      reads this
    {
      currentState == Closed
    }

    predicate IsPartial()
      reads this
    {
      currentState == PartiallyOpen
    }

    /** Exactly one of the three state queries holds. */
    lemma ExactlyOneQueryHolds()
      ensures IsOpen() || IsClosed() || IsPartial()
      ensures !(IsOpen() && IsClosed()) && !(IsOpen() && IsPartial()) && !(IsClosed() && IsPartial())
    {
    }

    method Trip()
      modifies this
      ensures currentState == Tripped(old(currentState))
      ensures IsOpen()
    {
      if currentState == Closed || currentState == PartiallyOpen {
        currentState := Open;
      }
    }

    method AttemptReset()
      modifies this
      ensures currentState == ResetAttempted(old(currentState))
      ensures old(IsOpen()) ==> IsPartial()
      ensures !old(IsOpen()) ==> currentState == old(currentState)
    {
      if currentState == Open {
        currentState := PartiallyOpen;
      }
    }

    method Reset()
      modifies this
      ensures currentState == ResetDone(old(currentState))
      ensures IsClosed()
    {
      if currentState == Open || currentState == PartiallyOpen {
        currentState := Closed;
      }
    }
  }
}
