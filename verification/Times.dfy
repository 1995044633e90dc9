/** Times and durations are counted in nanoseconds. */
module Times {
  const SECOND := 1_000_000_000
  const MINUTE := 60 * SECOND
  const HOUR := 60 * MINUTE
}
