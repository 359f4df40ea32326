/** Points in time and durations of seconds and nanoseconds, as the timer queue uses them. */
module PreciseTime {
  const NANOSECONDS_OF_SECOND := 1_000_000_000

  datatype Time = Time(seconds: int, nanoseconds: int)

  function Plus(left: Time, right: Time): Time {
    var seconds, nanoseconds := left.seconds + right.seconds, left.nanoseconds + right.nanoseconds;
    if nanoseconds >= NANOSECONDS_OF_SECOND then Time(seconds + 1, nanoseconds - NANOSECONDS_OF_SECOND)
    else Time(seconds, nanoseconds)
  }

  predicate Less(left: Time, right: Time) {
    if left.seconds != right.seconds then left.seconds < right.seconds else left.nanoseconds < right.nanoseconds
  }

  predicate Greater(left: Time, right: Time) {
    if left.seconds != right.seconds then left.seconds > right.seconds else left.nanoseconds > right.nanoseconds
  }

  predicate Normalised(t: Time) {
    0 <= t.nanoseconds < NANOSECONDS_OF_SECOND
  }

  /** The value of a time in nanoseconds. */
  function Nanos(t: Time): int {
    t.seconds * NANOSECONDS_OF_SECOND + t.nanoseconds
  }

  /** Not later. */
  predicate AtMost(left: Time, right: Time) {
    !Less(right, left)
  }

  lemma PlusIsExact(left: Time, right: Time)
    requires Normalised(left) && Normalised(right)
    ensures Normalised(Plus(left, right)) && Nanos(Plus(left, right)) == Nanos(left) + Nanos(right)
  {
  }

  /** On normalised times the comparisons are those of the values. */
  lemma OrderIsExact(left: Time, right: Time)
    requires Normalised(left) && Normalised(right)
    ensures Less(left, right) <==> Nanos(left) < Nanos(right)
    ensures Greater(left, right) <==> Nanos(left) > Nanos(right)
    ensures left == right <==> Nanos(left) == Nanos(right)
  {
    if left.seconds < right.seconds {
      assert left.seconds + 1 <= right.seconds;
    } else if right.seconds < left.seconds {
      assert right.seconds + 1 <= left.seconds;
    }
  }

  /** A non-negative delay does not lead into the past. */
  lemma PlusIsLater(now: Time, delay: Time)
    requires Normalised(now) && Normalised(delay) && delay.seconds >= 0
    ensures AtMost(now, Plus(now, delay))
  {
  }
}
