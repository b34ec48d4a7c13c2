/** The few `Calendar.current` operations the inventory uses, on a fixed
    local-time line: an instant is a count of seconds, every day has 86400
    of them, and day `d` starts at instant `d * 86400`. Time zones and
    daylight-saving shifts are not modelled. */
module Dates {

  type Instant = int
  type Day = int

  const SecondsPerDay: int := 86400

  /** The number of the day that contains `t`. */
  function DayOf(t: Instant): (d: Day)
    ensures d * SecondsPerDay <= t < d * SecondsPerDay + SecondsPerDay
  {
    t / SecondsPerDay
  }

  /** `calendar.startOfDay(for: t)`. */
  function StartOfDay(t: Instant): (s: Instant)
    ensures s <= t < s + SecondsPerDay
    ensures s % SecondsPerDay == 0
    ensures DayOf(s) == DayOf(t)
  {
    DayOf(t) * SecondsPerDay
  }

  /** `calendar.date(byAdding: .day, value: n, to: t)`. */
  function AddDays(t: Instant, n: int): (r: Instant)
    ensures DayOf(r) == DayOf(t) + n
    ensures r - StartOfDay(r) == t - StartOfDay(t)
  {
    t + n * SecondsPerDay
  }

  /** `calendar.isDate(a, inSameDayAs: b)`. */
  predicate SameDay(a: Instant, b: Instant)
  {
    DayOf(a) == DayOf(b)
  }

  /** Two instants are on the same day exactly when their days start at the
      same instant, and exactly when one lies less than a day after the
      start of the other's day. */
  lemma SameDayIffSameStart(a: Instant, b: Instant)
    ensures SameDay(a, b) <==> StartOfDay(a) == StartOfDay(b)
    ensures SameDay(a, b) <==> StartOfDay(b) <= a < StartOfDay(b) + SecondsPerDay
  {
  }

  /** Comparing start-of-day instants, one of them shifted by whole days, is
      comparing day numbers. */
  lemma StartOfDayShiftedOrder(a: Instant, b: Instant, n: int)
    ensures StartOfDay(a) <= AddDays(StartOfDay(b), n) <==> DayOf(a) <= DayOf(b) + n
    ensures StartOfDay(a) >= AddDays(StartOfDay(b), n) <==> DayOf(a) >= DayOf(b) + n
  {
  }
}
