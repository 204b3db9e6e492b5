/**
 * Instants and durations as signed nanosecond counts, the way Go's
 * time.Time and time.Duration measure them.
 */
module Clock {
  type Instant = int
  type Duration = int

  const Second: Duration := 1_000_000_000

  /** Go's `d / time.Second`: a whole number of seconds, truncated toward zero. */
  function WholeSeconds(d: Duration): (s: int)
    ensures 0 <= d ==> 0 <= s && s * Second <= d < (s + 1) * Second
    ensures d < 0 ==> s <= 0 && (s - 1) * Second < d <= s * Second
  {
    if 0 <= d then d / Second else -((-d) / Second)
  }
}
