/**
 * Foundation's `Calendar.current`, as the apps use it. The calendar's own arithmetic (time zones,
 * month lengths, weekdays) is not modelled: each library call the apps make is a field of
 * `Calendar`, and the model is proved for every calendar.
 */
module Calendars {
  import opened Wrappers

  /** The year, month and day components of an instant, as `dateComponents` gives them. */
  datatype CivilDate = CivilDate(year: nat, month: nat, day: nat)

  /** `component(.weekday, from:)`: 1 is Sunday, 2 Monday, ..., 7 Saturday. */
  type Weekday = w: int | 1 <= w <= 7 witness 1

  datatype Calendar = Calendar(
    /** The local calendar day of an instant; `isDate(_:inSameDayAs:)` compares these. */
    dayOf: int -> CivilDate,
    /** `component(.weekday, from:)` */
    weekdayOf: int -> Weekday,
    /** `date(from: DateComponents(year:month:day:))`, `nil` when the components name no date. */
    dateFrom: CivilDate -> Option<int>,
    /** `range(of: .day, in: .month, for:)!.count` */
    daysInMonthOf: int -> nat,
    /** `date(byAdding: .month, value:, to:)` */
    addMonths: (int, int) -> Option<int>,
    /** The number of days of a month of a year, the calendar's own table. */
    monthLength: (nat, nat) -> nat)

  /** Months counted from year 0: consecutive months have consecutive indices. */
  function MonthIndex(d: CivilDate): int {
    d.year * 12 + d.month - 1
  }

  /** Components that name a day of the calendar: a month from 1 to 12 and a day within its length. */
  predicate IsValidDay(cal: Calendar, d: CivilDate) {
    1 <= d.month <= 12 && 1 <= d.day <= cal.monthLength(d.year, d.month)
  }

  /**
   * What Foundation promises of these calls, and what the proofs about days rely on:
   * every instant falls on a valid day; `range(of: .day, in: .month, for:)` counts that day's month;
   * `date(from:)` finds every valid day, and the instant it gives falls on that day; and adding
   * `k` months moves the year and month `k` months on.
   */
  ghost predicate Coherent(cal: Calendar) {
    && (forall t :: IsValidDay(cal, cal.dayOf(t)))
    && (forall t :: cal.daysInMonthOf(t) == cal.monthLength(cal.dayOf(t).year, cal.dayOf(t).month))
    && (forall d :: IsValidDay(cal, d) ==> cal.dateFrom(d).Some? && cal.dayOf(cal.dateFrom(d).value) == d)
    && (forall k, t :: cal.addMonths(k, t).Some? ==>
          MonthIndex(cal.dayOf(cal.addMonths(k, t).value)) == MonthIndex(cal.dayOf(t)) + k)
  }

  /** `isDate(a, inSameDayAs: b)` */
  predicate IsSameDay(cal: Calendar, a: int, b: int) {
    cal.dayOf(a) == cal.dayOf(b)
  }

  /** The clauses of `Coherent` one instant, one set of components, or one step at a time. */
  lemma CoherentDay(cal: Calendar, t: int)
    ensures Coherent(cal) ==> IsValidDay(cal, cal.dayOf(t))
    ensures Coherent(cal) ==> cal.daysInMonthOf(t) == cal.monthLength(cal.dayOf(t).year, cal.dayOf(t).month)
  {
  }

  lemma CoherentDateFrom(cal: Calendar, d: CivilDate)
    ensures Coherent(cal) && IsValidDay(cal, d) ==> cal.dateFrom(d).Some? && cal.dayOf(cal.dateFrom(d).value) == d
  {
  }

  lemma CoherentAddMonths(cal: Calendar, k: int, t: int)
    ensures Coherent(cal) && cal.addMonths(k, t).Some? ==>
      MonthIndex(cal.dayOf(cal.addMonths(k, t).value)) == MonthIndex(cal.dayOf(t)) + k
  {
  }
}
