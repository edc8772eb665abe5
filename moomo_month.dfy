/**
 * Moomo's `MonthView`: the month grid laid out from the number of days in the month and the
 * weekday of its first day, the Sunday-first header above it, the mark each day shows, and the
 * vertical swipe that steps `currentDate` by a month.
 */
module MoomoCalendar {
  import opened Wrappers
  import opened Calendars
  import opened Sequences
  import opened MoomoData

  /** `weekAbbr`, the header row: the grid's weeks start on Sunday. */
  const WeekAbbr: seq<string> := ["Sun", "Mon", "Tue", "Wed", "Thu", "Fri", "Sat"]

  /** The English abbreviation of a weekday in Foundation's numbering, where 1 is Sunday. */
  function WeekdayAbbreviation(w: Weekday): string {
    if w == 1 then "Sun"
    else if w == 2 then "Mon"
    else if w == 3 then "Tue"
    else if w == 4 then "Wed"
    else if w == 5 then "Thu"
    else if w == 6 then "Fri"
    else "Sat"
  }

  /** What a dated cell shows under its number: the emotion's icon, or the empty `"Ellipse 199"` circle. */
  datatype Mark = EmotionIcon(emotion: EmotionType) | EmptyCircle

  /** A grid cell: a blank `Spacer`, or a day number with its mark. */
  datatype Cell = Spacer | DayCell(day: int, mark: Mark)

  /** The `if let record = latestRecord(for:)` choice of image. */
  function MarkFor(latest: Option<MoodRecord>): Mark {
    match latest
    case Some(r) => EmotionIcon(r.emotion)
    case None => EmptyCircle
  }

  /** `rows = Int(ceil(Double(days + firstWeekday - 1) / 7.0))`, exact in integers. */
  function RowCount(days: nat, firstWeekday: Weekday): nat {
    CeilDiv(days + firstWeekday - 1, 7)
  }

  /** `row * 7 + col - (firstWeekday - 1) + 1`: the day number a cell would show. */
  function DayAt(row: int, col: int, firstWeekday: Weekday): int {
    row * 7 + col - (firstWeekday - 1) + 1
  }

  /** The cell at (`row`, `col`); `marks[d - 1]` is the mark of day `d`. */
  function GridCell(days: nat, firstWeekday: Weekday, marks: seq<Mark>, row: int, col: int): Cell
    requires |marks| == days
  {
    var day := DayAt(row, col, firstWeekday);
    if 1 <= day <= days then DayCell(day, marks[day - 1]) else Spacer
  }

  /** The nested `ForEach(0..<rows)` / `ForEach(0..<7)` of `calendarGrid`. */
  function Grid(days: nat, firstWeekday: Weekday, marks: seq<Mark>): (g: seq<seq<Cell>>)
    requires |marks| == days
    ensures |g| == RowCount(days, firstWeekday)
    ensures forall r :: 0 <= r < |g| ==> |g[r]| == 7
    ensures forall r, c :: 0 <= r < |g| && 0 <= c < 7 ==> g[r][c] == GridCell(days, firstWeekday, marks, r, c)
  {
    seq(RowCount(days, firstWeekday), (r: int) =>
      seq(7, (c: int) => GridCell(days, firstWeekday, marks, r, c)))
  }

  /** The rows hold the leading blanks and every day, and one row fewer would not. */
  lemma RowCountIsFewest(days: nat, firstWeekday: Weekday)
    ensures RowCount(days, firstWeekday) * 7 >= days + firstWeekday - 1
    ensures RowCount(days, firstWeekday) == 0 || (RowCount(days, firstWeekday) - 1) * 7 < days + firstWeekday - 1
  {
  }

  /** Day `d` sits at row `(d + firstWeekday - 2) / 7`, column `(d + firstWeekday - 2) % 7`, and nowhere else. */
  lemma DayAppearsOnce(days: nat, firstWeekday: Weekday, marks: seq<Mark>, d: int)
    requires |marks| == days && 1 <= d <= days
    ensures var g, row, col := Grid(days, firstWeekday, marks), (d + firstWeekday - 2) / 7, (d + firstWeekday - 2) % 7;
      row < |g| && g[row][col] == DayCell(d, marks[d - 1])
    ensures var g := Grid(days, firstWeekday, marks);
      forall r, c :: 0 <= r < |g| && 0 <= c < 7 && g[r][c].DayCell? && g[r][c].day == d ==>
        r == (d + firstWeekday - 2) / 7 && c == (d + firstWeekday - 2) % 7
  {
    var g: seq<seq<Cell>> := Grid(days, firstWeekday, marks);
    var i := d + firstWeekday - 2;
    var row, col := i / 7, i % 7;
    assert row * 7 + col == i;
    RowCountIsFewest(days, firstWeekday);
    assert row < RowCount(days, firstWeekday);
    assert DayAt(row, col, firstWeekday) == d;
    forall r: int, c: int | 0 <= r < |g| && 0 <= c < 7 && g[r][c].DayCell? && g[r][c].day == d
      ensures r == row && c == col
    {
      assert r * 7 + c == i;
    }
  }

  /** Day 1 is in the first row, in the column of its weekday. */
  lemma FirstDayPosition(days: nat, firstWeekday: Weekday, marks: seq<Mark>)
    requires |marks| == days && days >= 1
    ensures var g := Grid(days, firstWeekday, marks);
      |g| > 0 && g[0][firstWeekday - 1] == DayCell(1, marks[0])
  {
    DayAppearsOnce(days, firstWeekday, marks, 1);
  }

  /**
   * `firstWeekday - 1` blanks (fewer than seven) come before day 1, and fewer than seven blanks
   * follow the last day; every cell in between is dated.
   */
  lemma BlanksOnlyAtTheEnds(days: nat, firstWeekday: Weekday, marks: seq<Mark>)
    requires |marks| == days
    ensures var g := Grid(days, firstWeekday, marks);
      forall r, c :: 0 <= r < |g| && 0 <= c < 7 ==>
        (g[r][c] == Spacer <==> r * 7 + c < firstWeekday - 1 || r * 7 + c >= days + firstWeekday - 1)
    ensures 0 <= firstWeekday - 1 < 7
    ensures 0 <= RowCount(days, firstWeekday) * 7 - (days + firstWeekday - 1) < 7
  {
    RowCountIsFewest(days, firstWeekday);
  }

  /** A dated cell in column `c` shows a day of the weekday headed `WeekAbbr[c]`, counting on from day 1's weekday. */
  predicate UnderItsHeader(firstWeekday: Weekday, cell: Cell, c: int) {
    0 <= c < 7 && (cell.DayCell? ==> WeekAbbr[c] == WeekdayAbbreviation((firstWeekday - 1 + cell.day - 1) % 7 + 1))
  }

  /** Every dated cell stands under the header of its weekday, counting on from day 1's weekday. */
  lemma ColumnsMatchHeader(days: nat, firstWeekday: Weekday, marks: seq<Mark>)
    requires |marks| == days
    ensures var g := Grid(days, firstWeekday, marks);
      forall r, c :: 0 <= r < |g| && 0 <= c < 7 ==> UnderItsHeader(firstWeekday, g[r][c], c)
  {
    var g: seq<seq<Cell>> := Grid(days, firstWeekday, marks);
    forall r: int, c: int | 0 <= r < |g| && 0 <= c < 7
      ensures UnderItsHeader(firstWeekday, g[r][c], c)
    {
      CellUnderHeader(days, firstWeekday, marks, r, c);
    }
  }

  /** The cell at (`r`, `c`) stands under its header. */
  lemma CellUnderHeader(days: nat, firstWeekday: Weekday, marks: seq<Mark>, r: nat, c: int)
    requires |marks| == days && 0 <= c < 7
    ensures UnderItsHeader(firstWeekday, GridCell(days, firstWeekday, marks, r, c), c)
  {
    assert firstWeekday - 1 + DayAt(r, c, firstWeekday) - 1 == r * 7 + c;
    RowColumnMod(r, c);
    HeaderColumn(c);
  }

  lemma RowColumnMod(r: nat, c: int)
    requires 0 <= c < 7
    ensures (r * 7 + c) % 7 == c
  {
  }

  lemma HeaderColumn(c: int)
    requires 0 <= c < 7
    ensures WeekAbbr[c] == WeekdayAbbreviation(c + 1)
  {
  }

  /** The step a vertical drag makes: 1 month forward, 1 back, or none. */
  function DragStep(translationHeight: real): (step: int)
    ensures step == 1 <==> translationHeight < -50.0
    ensures step == -1 <==> translationHeight > 50.0
    ensures step == 0 <==> -50.0 <= translationHeight <= 50.0
  {
    if translationHeight < -50.0 then 1
    else if translationHeight > 50.0 then -1
    else 0
  }

  class MonthView {
    /** The `@Binding` the view shows and swipes. */
    var currentDate: int
    /** `Calendar.current` */
    const calendar: Calendar
    /** `MoodDataManager.shared` */
    const manager: MoodDataManager

    constructor(calendar: Calendar, manager: MoodDataManager, currentDate: int)
      ensures this.calendar == calendar && this.manager == manager && this.currentDate == currentDate
    {
      this.calendar := calendar;
      this.manager := manager;
      this.currentDate := currentDate;
    }

    /** The year and month of `currentDate`, on day 1. */
    function FirstOfMonth(): CivilDate
      reads this
    {
      var c := calendar.dayOf(currentDate);
      CivilDate(c.year, c.month, 1)
    }

    /** `daysInMonth()`: the length of the month `currentDate` falls in, so `currentDate`'s day is within it. */
    function DaysInMonth(): (n: nat)
      reads this
      ensures n == calendar.daysInMonthOf(currentDate)
      ensures Coherent(calendar) ==>
        var c := calendar.dayOf(currentDate);
        n == calendar.monthLength(c.year, c.month) && 1 <= c.day <= n
    {
      CoherentDay(calendar, currentDate);
      calendar.daysInMonthOf(currentDate)
    }

    /**
     * `firstWeekdayOfMonth()`: the weekday of the instant `date(from:)` gives for day 1 of the
     * current year and month. Its force unwrap needs the calendar to find that day.
     */
    function FirstWeekdayOfMonth(): (w: Weekday)
      reads this
      requires calendar.dateFrom(FirstOfMonth()).Some?
      ensures var t := calendar.dateFrom(FirstOfMonth()).value;
        w == calendar.weekdayOf(t) &&
        (Coherent(calendar) ==> calendar.dayOf(t) == FirstOfMonth())
    {
      CoherentDay(calendar, currentDate);
      CoherentDateFrom(calendar, FirstOfMonth());
      calendar.weekdayOf(calendar.dateFrom(FirstOfMonth()).value)
    }

    /**
     * `dateForDay(_:)`: day `day` of the current month and year; `Date()` (here `now`) when the
     * calendar has no such date.
     */
    function DateForDay(day: nat, now: int): (r: int)
      reads this
      ensures var c := calendar.dayOf(currentDate);
        match calendar.dateFrom(CivilDate(c.year, c.month, day))
        case Some(t) => r == t
        case None => r == now
      ensures Coherent(calendar) && 1 <= day <= DaysInMonth() ==>
        var c := calendar.dayOf(currentDate);
        calendar.dayOf(r) == CivilDate(c.year, c.month, day)
    {
      var c := calendar.dayOf(currentDate);
      CoherentDay(calendar, currentDate);
      CoherentDateFrom(calendar, CivilDate(c.year, c.month, day));
      calendar.dateFrom(CivilDate(c.year, c.month, day)).GetOr(now)
    }

    /** The mark of every day of the month, day 1 first. */
    function DayMarks(now: int): (marks: seq<Mark>)
      reads this, manager
      ensures |marks| == DaysInMonth()
      ensures forall i :: 0 <= i < |marks| ==>
        marks[i] == MarkFor(manager.LatestRecord(calendar, DateForDay(i + 1, now)))
    {
      seq(DaysInMonth(), (i: int) requires 0 <= i reads this, manager =>
        MarkFor(manager.LatestRecord(calendar, DateForDay(i + 1, now))))
    }

    /**
     * `calendarGrid`: the grid of the current month, each day showing the icon of the latest
     * record of its day, or the empty circle when it has none.
     */
    function CalendarGrid(now: int): (g: seq<seq<Cell>>)
      reads this, manager
      requires calendar.dateFrom(FirstOfMonth()).Some?
      ensures g == Grid(DaysInMonth(), FirstWeekdayOfMonth(), DayMarks(now))
      ensures forall r, c :: 0 <= r < |g| && 0 <= c < 7 && g[r][c].DayCell? ==>
        1 <= g[r][c].day <= DaysInMonth() &&
        g[r][c].mark == MarkFor(manager.LatestRecord(calendar, DateForDay(g[r][c].day, now)))
    {
      Grid(DaysInMonth(), FirstWeekdayOfMonth(), DayMarks(now))
    }

    /** `previousMonth(from:)`: one month back, or `date` itself when the calendar cannot step. */
    function PreviousMonth(date: int): (r: int)
      reads this
      ensures calendar.addMonths(-1, date).None? ==> r == date
      ensures calendar.addMonths(-1, date).Some? ==> r == calendar.addMonths(-1, date).value
      ensures Coherent(calendar) && calendar.addMonths(-1, date).Some? ==>
        MonthIndex(calendar.dayOf(r)) == MonthIndex(calendar.dayOf(date)) - 1
    {
      CoherentAddMonths(calendar, -1, date);
      calendar.addMonths(-1, date).GetOr(date)
    }

    /** `nextMonth(from:)`: one month on, or `date` itself when the calendar cannot step. */
    function NextMonth(date: int): (r: int)
      reads this
      ensures calendar.addMonths(1, date).None? ==> r == date
      ensures calendar.addMonths(1, date).Some? ==> r == calendar.addMonths(1, date).value
      ensures Coherent(calendar) && calendar.addMonths(1, date).Some? ==>
        MonthIndex(calendar.dayOf(r)) == MonthIndex(calendar.dayOf(date)) + 1
    {
      CoherentAddMonths(calendar, 1, date);
      calendar.addMonths(1, date).GetOr(date)
    }

    /** The drag gesture's `onEnded`: past 50 points up is the next month, past 50 down the previous one. */
    method OnDragEnded(translationHeight: real)
      modifies this
      ensures DragStep(translationHeight) == 1 ==> currentDate == NextMonth(old(currentDate))
      ensures DragStep(translationHeight) == -1 ==> currentDate == PreviousMonth(old(currentDate))
      ensures DragStep(translationHeight) == 0 ==> currentDate == old(currentDate)
    {
      if translationHeight < -50.0 {
        currentDate := NextMonth(currentDate);
      } else if translationHeight > 50.0 {
        currentDate := PreviousMonth(currentDate);
      }
    }
  }

  /** With a coherent calendar, `firstWeekdayOfMonth`'s force unwrap always succeeds. */
  lemma FirstOfMonthExists(view: MonthView)
    requires Coherent(view.calendar)
    ensures view.calendar.dateFrom(view.FirstOfMonth()).Some?
  {
    CoherentDay(view.calendar, view.currentDate);
    CoherentDateFrom(view.calendar, view.FirstOfMonth());
  }

  /**
   * A dated cell of `calendarGrid` shows the empty circle exactly when no record falls on its
   * calendar day, and otherwise the emotion of a record of that day that no record of the day
   * is later than.
   */
  lemma CellShowsLatestOfItsDay(view: MonthView, now: int, r: int, c: int)
    requires Coherent(view.calendar) && view.calendar.dateFrom(view.FirstOfMonth()).Some?
    requires 0 <= r < |view.CalendarGrid(now)| && 0 <= c < 7 && view.CalendarGrid(now)[r][c].DayCell?
    ensures var cell, first := view.CalendarGrid(now)[r][c], view.FirstOfMonth();
      var day := CivilDate(first.year, first.month, cell.day);
      && (cell.mark == EmptyCircle <==>
            forall x :: x in view.manager.records ==> view.calendar.dayOf(x.dateTime) != day)
      && (cell.mark.EmotionIcon? ==>
            exists rec :: LatestOfDay(view.manager.records, view.calendar, day, rec) && rec.emotion == cell.mark.emotion)
  {
    var cell, first := view.CalendarGrid(now)[r][c], view.FirstOfMonth();
    var day := CivilDate(first.year, first.month, cell.day);
    var t := view.DateForDay(cell.day, now);
    assert view.calendar.dayOf(t) == day;
    var latest := view.manager.LatestRecord(view.calendar, t);
    assert cell.mark == MarkFor(latest);
    if latest.Some? {
      assert LatestOfDay(view.manager.records, view.calendar, day, latest.value);
    }
  }
}
