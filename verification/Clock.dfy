/** Times and durations are counted in nanoseconds. */
module Clock {
  const SECOND := 1_000_000_000
}
