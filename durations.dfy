/** Go's `time.Duration` and `caddy.Duration`: integer nanoseconds. */
module Durations {
  const Second: int := 1_000_000_000
  const Hour: int := 3600 * Second
}
