/**
 * Calendar days as integer day numbers (day 0 is 1970-01-01, in local time).
 * What the board takes from date-fns and `Date` is abstracted here: the day of
 * the month (`getDate`) and the `yyyy-MM-dd` key (`format(d, "yyyy-MM-dd")`)
 * are fields of a `Calendar`; the day of the week is computed.
 */
module Calendar {

  type Day = int

  /** The calendar services the board reads: `d.getDate()` and `toKey(d)`. */
  datatype Calendar = Calendar(dayOfMonth: Day -> int, toKey: Day -> string)

  /** A real calendar: days of the month are 1..31 and distinct days have distinct keys. */
  ghost predicate ValidCalendar(cal: Calendar) {
    && (forall d :: 1 <= cal.dayOfMonth(d) <= 31)
    && (forall d1, d2 :: cal.toKey(d1) == cal.toKey(d2) ==> d1 == d2)
  }

  /** `d.getDay()`: 0 is Sunday, 6 is Saturday; day 0 was a Thursday. */
  function DayOfWeek(d: Day): (w: int)
    ensures 0 <= w < 7
  {
    (d + 4) % 7
  }

  /** `d.getDay() === 0 || d.getDay() === 6`. */
  predicate IsWeekend(d: Day) {
    DayOfWeek(d) == 0 || DayOfWeek(d) == 6
  }

  /** `toKey(d) === toKey(new Date())`, with the clock read passed in as `today`. */
  predicate IsToday(cal: Calendar, d: Day, today: Day) {
    cal.toKey(d) == cal.toKey(today)
  }

  /** Comparing keys is comparing days. */
  lemma IsTodayIffSameDay(cal: Calendar, d: Day, today: Day)
    requires ValidCalendar(cal)
    ensures IsToday(cal, d, today) <==> d == today
  {
  }

  /** `addDays(d, n)`. */
  function AddDays(d: Day, n: int): Day {
    d + n
  }

  /**
   * `eachDayOfInterval({start, end})`: every day from `start` to `end` inclusive,
   * ascending and without gaps.
   */
  function Days(start: Day, end: Day): (days: seq<Day>)
    requires start <= end
    ensures |days| == end - start + 1
    ensures days[0] == start && days[|days| - 1] == end
    ensures forall i :: 0 <= i < |days| - 1 ==> days[i + 1] == days[i] + 1
  {
    seq(end - start + 1, i => start + i)
  }

  /** The day list is strictly ascending, so no day appears twice. */
  lemma {:induction false} DaysAscending(start: Day, end: Day, i: int, j: int)
    requires start <= end
    requires 0 <= i < j < |Days(start, end)|
    ensures Days(start, end)[i] < Days(start, end)[j]
  {
    var days := Days(start, end);
    if j > i + 1 {
      DaysAscending(start, end, i, j - 1);
    }
    assert days[j] == days[j - 1] + 1;
  }

  /** A day is listed exactly when it lies within the inclusive bounds. */
  lemma DaysMembership(start: Day, end: Day, d: Day)
    requires start <= end
    ensures d in Days(start, end) <==> start <= d <= end
  {
    var days := Days(start, end);
    if start <= d <= end {
      assert days[d - start] == d;
    }
  }
}
