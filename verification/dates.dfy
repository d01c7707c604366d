/**
 * Instants and calendar days.
 *
 * An instant is a count of milliseconds on a single local timeline (no time
 * zones, no daylight-saving jumps), which is what the date-fns helpers used by
 * the application see once the host's offset is fixed.  A day is the integer
 * number of whole days since the epoch, so "start of day" is a floor division.
 */
module Dates {

  type Instant = int
  type Day = int

  const MsPerDay: int := 86_400_000

  /** The calendar day an instant falls on. */
  function DayOf(t: Instant): Day
  {
    t / MsPerDay
  }

  /** The first millisecond (midnight) of a day. */
  function DayStart(d: Day): (r: Instant)
    ensures DayOf(r) == d
    ensures r % MsPerDay == 0
  {
    d * MsPerDay
  }

  /** date-fns `startOfDay`: midnight of the instant's own day. */
  function StartOfDay(t: Instant): (r: Instant)
    ensures r <= t < r + MsPerDay
    ensures DayOf(r) == DayOf(t)
    ensures r % MsPerDay == 0
  {
    DayStart(DayOf(t))
  }

  /** date-fns `addDays`: the same time of day, `n` days later (or earlier). */
  function AddDays(t: Instant, n: int): (r: Instant)
    ensures DayOf(r) == DayOf(t) + n
    ensures r - StartOfDay(r) == t - StartOfDay(t)
  {
    t + n * MsPerDay
  }

  /** date-fns `isAfter`: strictly later. */
  predicate IsAfter(a: Instant, b: Instant)
  {
    a > b
  }

  /** date-fns `isBefore`: strictly earlier. */
  predicate IsBefore(a: Instant, b: Instant)
  {
    a < b
  }

  /** date-fns `isSameDay`: both instants fall on one calendar day. */
  predicate IsSameDay(a: Instant, b: Instant)
  {
    DayOf(a) == DayOf(b)
  }

  /** Between two midnights, instant order is day order. */
  lemma MidnightOrder(d: Day, e: Day)
    ensures IsAfter(DayStart(d), DayStart(e)) <==> d > e
    ensures IsBefore(DayStart(d), DayStart(e)) <==> d < e
  {
  }

  /**
   * A midnight is after an arbitrary instant or on the same day as it exactly
   * when its day is not earlier than the instant's day.
   */
  lemma AfterOrSameDay(d: Day, t: Instant)
    ensures IsAfter(DayStart(d), t) || IsSameDay(DayStart(d), t) <==> d >= DayOf(t)
  {
    var s := StartOfDay(t);
    if d > DayOf(t) {
      MidnightOrder(d, DayOf(t) + 1);
      assert DayStart(DayOf(t) + 1) == s + MsPerDay;
    } else if d < DayOf(t) {
      MidnightOrder(d, DayOf(t));
    }
  }
}
