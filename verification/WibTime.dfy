/** Instants in microseconds since the Unix epoch, and the calendar of Western Indonesia
    (WIB, seven hours ahead of UTC). */
module WibTime {

  type Instant = int

  const SECOND := 1_000_000
  const DAY := 86_400 * SECOND
  const WIB_OFFSET := 7 * 3_600 * SECOND

  /** The WIB calendar date, counted in days. */
  function WibDate(t: Instant): int {
    (t + WIB_OFFSET) / DAY
  }

  /** The instant a WIB date begins. */
  function StartOf(date: int): Instant {
    date * DAY - WIB_OFFSET
  }

  /** Whole seconds of a duration, truncated toward zero. */
  function NumSeconds(duration: int): int {
    if duration >= 0 then duration / SECOND else -(-duration / SECOND)
  }

  /** An instant lies within its own date. */
  lemma WithinDate(t: Instant)
    ensures StartOf(WibDate(t)) <= t < StartOf(WibDate(t) + 1)
  {}

  lemma WibDateMonotone(s: Instant, t: Instant)
    requires s <= t
    ensures WibDate(s) <= WibDate(t)
  {}

  lemma NumSecondsBound(duration: int)
    requires NumSeconds(duration) >= 1
    ensures NumSeconds(duration) * SECOND <= duration
  {}

  /** In microseconds: the epoch is on date 0, and a new date begins with each instant that is
      17:00 in UTC, and only then. */
  lemma {:induction false} DatesTurnAtLocalMidnight(t: Instant)
    ensures WibDate(0) == 0
    ensures WibDate(t) == WibDate(t - 1) + if t % 86_400_000_000 == 61_200_000_000 then 1 else 0
  {}

  /** The local midnight that begins the date of an instant, in microseconds. */
  function LocalMidnight(t: Instant): Instant {
    t - (t - 61_200_000_000) % 86_400_000_000
  }

  /** Two instants lie as many dates apart as their local midnights lie days. */
  lemma MidnightsApart(s: Instant, t: Instant)
    ensures (WibDate(s) - WibDate(t)) * 86_400_000_000 == LocalMidnight(s) - LocalMidnight(t)
    ensures LocalMidnight(t) <= t < LocalMidnight(t) + 86_400_000_000
  {}
}
