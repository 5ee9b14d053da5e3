/** `getNextRecurringDate` of src/store.ts: the date one interval after a
    given date, with date-fns' clamping of the day of the month. */
module Recurrence {
  import opened Seqs
  import opened Dates
  import opened Types

  /** The next occurrence one interval after `d`. */
  function Advance(d: CalendarDate, interval: Interval): (r: CalendarDate)
    ensures Less(d, r)
  {
    match interval
    case Weekly => AddDays(d, 7)
    case Monthly => AddOneMonth(d)
    case Yearly => AddOneYear(d)
  }

  /** The function as the sweep calls it, with an interval that may be absent
      at run time: the `default` branch returns the date unchanged. */
  function NextRecurringDate(d: CalendarDate, interval: Option<Interval>): (r: CalendarDate)
    ensures interval.None? <==> r == d
  {
    match interval
    case Some(i) => Advance(d, i)
    case None => d
  }

  /** Weekly is exactly seven days: going back seven days recovers the date. */
  lemma WeeklyIsSevenDays(d: CalendarDate)
    ensures SubDays(Advance(d, Weekly), 7) == d
  {
    AddSubDays(d, 7);
  }

  /** Monthly moves to the next calendar month and keeps the day when that
      month has it; otherwise it lands on the month's last day. */
  lemma MonthlyIsNextMonth(d: CalendarDate)
    ensures var r := Advance(d, Monthly);
      MonthIndex(MonthOf(r)) == MonthIndex(MonthOf(d)) + 1 &&
      (d.day <= DaysInMonth(r.year, r.month) ==> r.day == d.day) &&
      (d.day > DaysInMonth(r.year, r.month) ==> r.day == DaysInMonth(r.year, r.month))
  {
  }

  /** Yearly keeps month and day, except that 29 February becomes 28 February
      when the next year is not a leap year. */
  lemma YearlyIsNextYear(d: CalendarDate)
    ensures var r := Advance(d, Yearly);
      r.year == d.year + 1 && r.month == d.month &&
      (r.day != d.day <==> d.month == 2 && d.day == 29 && !IsLeapYear(d.year + 1))
  {
  }

  /** Worked examples: month ends clamp, leap years are honoured. */
  lemma AdvanceExamples()
    ensures Advance(Date(2024, 1, 31), Monthly) == Date(2024, 2, 29)
    ensures Advance(Date(2023, 1, 31), Monthly) == Date(2023, 2, 28)
    ensures Advance(Date(2024, 2, 29), Yearly) == Date(2025, 2, 28)
    ensures Advance(Date(2024, 1, 1), Weekly) == Date(2024, 1, 8)
    ensures Advance(Date(2024, 12, 28), Weekly) == Date(2025, 1, 4)
  {
  }
}
