/** Wall-clock times are integer nanoseconds; the schema stores whole milliseconds. */
module Clock {
  const MILLISECOND := 1_000_000
  const SECOND := 1_000 * MILLISECOND
  const MINUTE := 60 * SECOND
  const HOUR := 60 * MINUTE

  /** The stored form of a time: truncated towards minus infinity. */
  function Millis(t: int): int {
    t / MILLISECOND
  }

  lemma MillisMonotone(a: int, b: int)
    requires a <= b
    ensures Millis(a) <= Millis(b)
  {
  }
}
