/** `time.Duration`, a count of nanoseconds, as the collectors and the report
    use it. */
module Durations {
  /** The window in seconds, with 1 in place of a window that is not positive: the
      divisor of every rate. */
  function WindowSeconds(window: int): (seconds: real)
    ensures seconds > 0.0
    ensures window > 0 ==> seconds * 1000000000.0 == window as real
    ensures window <= 0 ==> seconds == 1.0
  {
    var s := window as real / 1000000000.0;
    if s <= 0.0 then 1.0 else s
  }
}
