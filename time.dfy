/** Durations and instants as whole .NET ticks (100 ns each), the resolution of
    DateTime and TimeSpan. */
module Time {

  /** Ticks in one second (TimeSpan.TicksPerSecond). */
  const TicksPerSecond: int := 10_000_000

  /** TimeSpan.FromSeconds(n) for a whole number of seconds. */
  function Seconds(n: int): (t: int)
    ensures n >= 0 <==> t >= 0
    ensures n == 0 <==> t == 0
  {
    n * TicksPerSecond
  }

  /** The ticks of DateTime.MaxValue; DateTime.MinValue is tick zero. */
  const MaxDateTicks: int := 3_155_378_975_999_999_999

  /** Whether `t` is the tick count of a representable DateTime. Arithmetic
      on DateTime that leaves this range throws ArgumentOutOfRangeException. */
  predicate InDateRange(t: int)
  {
    0 <= t <= MaxDateTicks
  }
}
