/** Time in nanoseconds; 0 stands for Go's zero `time.Time`. */
module Clock {
  type Time = int
  const ZERO: Time := 0
  const MICROSECOND: int := 1000
  const SECOND: int := 1_000_000_000

  /** `Time.Truncate(time.Microsecond)` */
  function TruncateMicro(t: Time): Time { t - t % MICROSECOND }
}
