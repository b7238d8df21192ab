/**
  Foundation's `Date` and `TimeInterval`, reduced to whole seconds on one
  reference clock. The current time is never read implicitly: every operation
  that needs it takes `now` as a parameter.
 */
module Clock {

  /** A point in time, in seconds since a fixed reference date. */
  type Date = int

  /** A signed duration in seconds. */
  type TimeInterval = int

  /** `.hours(24)`: the threshold below which remaining sensor life is a warning. */
  const Day: TimeInterval := 24 * 60 * 60

  /** `date.timeIntervalSinceNow`: positive for a date still in the future. */
  function IntervalSinceNow(date: Date, now: Date): (r: TimeInterval)
    ensures r > 0 <==> date > now
    ensures now + r == date
  {
    date - now
  }
}
