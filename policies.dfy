/** Backoff policies: pure maps from an attempt number to a delay in ticks. */
module Policies {
  import opened Time

  /** The two implementations of IPolicy. An InstantPolicy carries its settable
      `Delay`; the exponential policy has no state. */
  datatype Policy = InstantPolicy(delay: int) | ExponentialBackoffPolicy {

    /** The delay before retry number `attempt`. */
    function GetDelay(attempt: int): (d: int)
      ensures InstantPolicy? ==> d == delay
      ensures ExponentialBackoffPolicy? ==> d >= 0
      ensures ExponentialBackoffPolicy? ==> (d == 0 <==> attempt == 0)
    {
      match this
      case InstantPolicy(delay) => delay
      case ExponentialBackoffPolicy => Seconds(Square(attempt))
    }
  }

  /** Math.Pow(attempt, 2) on integers. */
  function Square(n: int): (r: int)
    ensures r >= 0
    ensures r == 0 <==> n == 0
  {
    n * n
  }

  /** A new InstantPolicy waits for nothing. */
  function NewInstantPolicy(): (p: Policy)
    ensures p.InstantPolicy?
    ensures forall attempt :: p.GetDelay(attempt) == 0
  {
    InstantPolicy(0)
  }

  /** The delays the exponential policy gives for attempts 0 to 4. */
  lemma ExponentialFirstDelays()
    ensures ExponentialBackoffPolicy.GetDelay(0) == Seconds(0)
    ensures ExponentialBackoffPolicy.GetDelay(1) == Seconds(1)
    ensures ExponentialBackoffPolicy.GetDelay(2) == Seconds(4)
    ensures ExponentialBackoffPolicy.GetDelay(3) == Seconds(9)
    ensures ExponentialBackoffPolicy.GetDelay(4) == Seconds(16)
  {
  }

  /** Later attempts never wait less than earlier ones. */
  lemma ExponentialMonotone(m: int, n: int)
    requires 0 <= m <= n
    ensures ExponentialBackoffPolicy.GetDelay(m) <= ExponentialBackoffPolicy.GetDelay(n)
  {
  }

  /** The sign of the attempt number does not matter. */
  lemma ExponentialSymmetric(n: int)
    ensures ExponentialBackoffPolicy.GetDelay(-n) == ExponentialBackoffPolicy.GetDelay(n)
  {
  }
}
