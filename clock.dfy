/** Calendar-day arithmetic on timestamps (milliseconds since the epoch).
    `date.setHours(0, 0, 0, 0)` is modelled as truncation to local midnight in
    a zone at a fixed `tzOffset` milliseconds ahead of UTC. */
module Clock {

  /** `24 * 60 * 60 * 1000`, the "tomorrow" offset of the today window. */
  const DAY_MS: int := 24 * 60 * 60 * 1000

  /** Local midnight at the start of the day that contains `t`. */
  function StartOfDay(t: int, tzOffset: int): (d: int)
    ensures d <= t < d + DAY_MS
    ensures (d + tzOffset) % DAY_MS == 0
  {
    t - (t + tzOffset) % DAY_MS
  }

  /** Truncating an already truncated time changes nothing. */
  lemma StartOfDayIdempotent(t: int, tzOffset: int)
    ensures StartOfDay(StartOfDay(t, tzOffset), tzOffset) == StartOfDay(t, tzOffset)
  {
  }

  /** Two times lie on the same local day exactly when they are in the same
      window `[midnight, midnight + 24h)`. */
  lemma SameDayIffWindow(t: int, u: int, tzOffset: int)
    ensures StartOfDay(t, tzOffset) == StartOfDay(u, tzOffset) <==>
            StartOfDay(t, tzOffset) <= u < StartOfDay(t, tzOffset) + DAY_MS
  {
  }
}
