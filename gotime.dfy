/**
 * The parts of Go's `time` package the auth code relies on: instants as
 * nanoseconds since the Unix epoch, `time.Duration` as a signed 64-bit count
 * of nanoseconds, `Time.Add`, the saturating `Time.Sub`, and `Time.Unix`.
 */
module GoTime {

  const MaxDuration: int := 0x7FFF_FFFF_FFFF_FFFF
  const MinDuration: int := -0x8000_0000_0000_0000
  const NanosPerSecond: int := 1_000_000_000

  /** `time.Duration`: an int64 number of nanoseconds (it may be negative). */
  type Duration = d: int | MinDuration <= d <= MaxDuration

  /** An instant, in nanoseconds since the Unix epoch. */
  type Time = int


  /**
   * `t.Sub(u)`: the elapsed time, clamped to the Duration range when the true
   * difference does not fit in an int64.
   */
  function Sub(t: Time, u: Time): (d: Duration)
    ensures MinDuration <= t - u <= MaxDuration ==> d == t - u
    ensures t - u > MaxDuration ==> d == MaxDuration
    ensures t - u < MinDuration ==> d == MinDuration
  {
    var diff := t - u;
    if diff > MaxDuration then MaxDuration
    else if diff < MinDuration then MinDuration
    else diff
  }

  /** `t.Add(d)`: the elapsed time from `t` to the result is `d` again. */
  function Add(t: Time, d: Duration): (r: Time)
    ensures Sub(r, t) == d
  {
    t + d
  }

  /** `t.Unix()`: whole seconds since the epoch, rounded toward minus infinity. */
  function Unix(t: Time): (s: int)
    ensures s * NanosPerSecond <= t < (s + 1) * NanosPerSecond
  {
    t / NanosPerSecond
  }

  /**
   * Comparing a clamped elapsed time against a bound below MaxDuration gives the
   * same answer as comparing the true difference; at MaxDuration itself, an
   * instant more than MaxDuration in the past is not seen as exceeding it.
   */
  lemma SubExceedsIff(t: Time, u: Time, bound: Duration)
    ensures bound < MaxDuration ==> (Sub(t, u) > bound <==> t - u > bound)
    ensures bound == MaxDuration ==> !(Sub(t, u) > bound)
  {
  }
}
