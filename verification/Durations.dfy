/** Lengths of time in milliseconds. */
module Durations {
  const MINUTE: nat := 60_000
  const HOUR: nat := 3_600_000
  const DAY: nat := 86_400_000
}
