/**
 * The board's date range: the `range` state set by the range picker and the
 * three week buttons, the window actually shown (`range?.from ?? today` to
 * `range?.to ?? addDays(start, 6)`) and its day list. The clock read
 * `new Date()` is the parameter `today`.
 */
module DateRange {
  import opened Wrappers
  import opened Calendar

  /** The `range` state; an `undefined` range behaves exactly like `Selection(None, None)`. */
  datatype Selection = Selection(from: Option<Day>, to: Option<Day>)

  /** What the range picker hands over: nothing, a start only, or a start and an end not before it. */
  predicate WellFormed(sel: Selection) {
    sel.to.Some? ==> sel.from.Some? && sel.from.value <= sel.to.value
  }

  /** An inclusive window of days. */
  datatype Window = Window(start: Day, end: Day)

  /** The window the board shows for a range state. */
  function Shown(sel: Selection, today: Day): (w: Window)
    requires WellFormed(sel)
    ensures w.start <= w.end
  {
    var start := sel.from.GetOr(today);
    var end := if sel.to.Some? then sel.to.value else AddDays(start, 6);
    Window(start, end)
  }

  /** The columns of the board: every day of the shown window. */
  function ShownDays(sel: Selection, today: Day): seq<Day>
    requires WellFormed(sel)
  {
    var w := Shown(sel, today);
    Days(w.start, w.end)
  }

  /** Without a range the board shows the seven days starting today. */
  lemma DefaultWindow(today: Day)
    ensures Shown(Selection(None, None), today) == Window(today, today + 6)
    ensures ShownDays(Selection(None, None), today) == [today, today + 1, today + 2, today + 3, today + 4, today + 5, today + 6]
  {
  }

  /** A start picked without an end yet shows seven days from that start. */
  lemma OpenEndedWindow(from: Day, today: Day)
    ensures Shown(Selection(Some(from), None), today) == Window(from, from + 6)
  {
  }

  /** A complete range of seven days. */
  predicate IsWeek(sel: Selection) {
    sel.from.Some? && sel.to.Some? && sel.to.value == sel.from.value + 6
  }

  /** The "previous 7 days" button: the week that ends the day before the shown start. */
  function PrevWeek(sel: Selection, today: Day): (r: Selection)
    requires WellFormed(sel)
    ensures WellFormed(r) && IsWeek(r)
    ensures Shown(r, today).end + 1 == Shown(sel, today).start
  {
    var start := sel.from.GetOr(today);
    Selection(Some(AddDays(start, -7)), Some(AddDays(start, -1)))
  }

  /** The "from today 7" button: the same window as having no range at all. */
  function TodayWeek(today: Day): (r: Selection)
    ensures WellFormed(r) && IsWeek(r)
    ensures Shown(r, today) == Shown(Selection(None, None), today)
  {
    Selection(Some(today), Some(AddDays(today, 6)))
  }

  /**
   * The "next 7 days" button as written: the week after `range?.to ?? today`.
   * It follows the shown window when the range has an end.
   */
  function NextWeek(sel: Selection, today: Day): (r: Selection)
    requires WellFormed(sel)
    ensures WellFormed(r) && IsWeek(r)
    ensures sel.to.Some? ==> Shown(r, today).start == Shown(sel, today).end + 1
  {
    var ref := sel.to.GetOr(today);
    Selection(Some(AddDays(ref, 1)), Some(AddDays(ref, 7)))
  }

  /**
   * With no end picked, "next" does not step to the day after the shown
   * window: with no range at all it moves by one day, and with only a start it
   * jumps to the week after today wherever the shown window is.
   */
  lemma NextWeekWithoutEnd(from: Day, today: Day)
    ensures Shown(NextWeek(Selection(None, None), today), today).start == today + 1
    ensures Shown(Selection(None, None), today).end + 1 == today + 7
    ensures Shown(NextWeek(Selection(Some(from), None), today), today).start == today + 1
    ensures Shown(Selection(Some(from), None), today).end + 1 == from + 7
  {
  }

  /** "Next 7 days" as evidently intended: the week after the shown window's last day. */
  function NextWeekAfterShown(sel: Selection, today: Day): (r: Selection)
    requires WellFormed(sel)
    ensures WellFormed(r) && IsWeek(r)
    ensures Shown(r, today).start == Shown(sel, today).end + 1
  {
    var ref := Shown(sel, today).end;
    Selection(Some(AddDays(ref, 1)), Some(AddDays(ref, 7)))
  }

  /** The intended "next" agrees with the written one whenever the range has an end. */
  lemma NextWeekAgreesWithEnd(sel: Selection, today: Day)
    requires WellFormed(sel) && sel.to.Some?
    ensures NextWeekAfterShown(sel, today) == NextWeek(sel, today)
  {
  }

  /** On a seven-day range, "previous" and "next" undo each other. */
  lemma PrevNextRoundTrip(sel: Selection, today: Day)
    requires IsWeek(sel)
    ensures NextWeekAfterShown(PrevWeek(sel, today), today) == sel
    ensures PrevWeek(NextWeekAfterShown(sel, today), today) == sel
    ensures NextWeek(PrevWeek(sel, today), today) == sel
  {
  }

  /** Every week the buttons produce shows seven consecutive days. */
  lemma WeekShowsSevenDays(sel: Selection, today: Day)
    requires IsWeek(sel)
    ensures |ShownDays(sel, today)| == 7
    ensures ShownDays(sel, today)[0] == sel.from.value
  {
  }
}
