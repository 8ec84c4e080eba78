/**
 * Calendar days as integer day numbers. Day 0 is a Monday, so `Weekday`
 * matches Python's `date.weekday()` (Monday = 0 ... Sunday = 6) and an ISO
 * date string orders like its day number.
 */
module Dates {

  type Day = int

  function Weekday(d: Day): (w: int)
    ensures 0 <= w < 7
  {
    d % 7
  }

  predicate IsMonday(d: Day) {
    Weekday(d) == 0
  }

  /** `iso_week_start(d)`: the Monday of d's week. */
  function WeekStart(d: Day): (m: Day)
    ensures IsMonday(m)
    ensures m <= d < m + 7
  {
    d - Weekday(d)
  }

  /** The Monday on or before d is the only Monday in the seven days ending at d. */
  lemma WeekStartUnique(d: Day, m: Day)
    requires IsMonday(m) && m <= d < m + 7
    ensures m == WeekStart(d)
  {
    var w := WeekStart(d);
    assert m % 7 == 0 && w % 7 == 0;
    assert -7 < m - w < 7;
    assert (m - w) % 7 == 0;
  }

  /** Two days fall in the same week iff they have the same week start. */
  lemma SameWeek(d1: Day, d2: Day)
    ensures WeekStart(d1) == WeekStart(d2) <==> WeekStart(d1) <= d2 < WeekStart(d1) + 7
  {
    if WeekStart(d1) <= d2 < WeekStart(d1) + 7 {
      WeekStartUnique(d2, WeekStart(d1));
    }
  }

  /** `today - timedelta(days=today.weekday() + 7 * k)`: the Monday k weeks before today's week. */
  function MondayWeeksAgo(today: Day, k: int): (m: Day)
    ensures IsMonday(m)
    ensures m == WeekStart(today) - 7 * k
  {
    var m := today - (Weekday(today) + 7 * k);
    assert m % 7 == 0;
    m
  }
}
