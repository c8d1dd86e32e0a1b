/** Dates of the demo catalog: closure offsets resolved to operating days. */
module CatalogDates {
  import opened Calendar

  /** `weekdayOf` */
  function WeekdayOfText(date: string): int
    requires IsDatePattern(date)
  {
    var c := ParseDate(date);
    WeekdayOf(UtcDay(c.year, c.month, c.day))
  }

  /** The first of the next `span` days from `day` that operates, or else `fallback`. */
  function FirstOperating(day: int, span: nat, operatingDays: set<int>, fallback: int): int
    decreases span
  {
    if span == 0 then fallback
    else if WeekdayOf(day) in operatingDays then day
    else FirstOperating(day + 1, span - 1, operatingDays, fallback)
  }

  /** The day a closure falls on. */
  function ClosureDay(start: int, operatingDays: set<int>): int {
    FirstOperating(start, 7, operatingDays, start)
  }

  lemma {:induction false} FirstOperatingFound(day: int, span: nat, operatingDays: set<int>, fallback: int, d: int)
    requires day <= d < day + span && WeekdayOf(d) in operatingDays
    ensures var r := FirstOperating(day, span, operatingDays, fallback);
            day <= r <= d && WeekdayOf(r) in operatingDays
            && forall k :: day <= k < r ==> WeekdayOf(k) !in operatingDays
    decreases span
  {
    if WeekdayOf(day) !in operatingDays {
      FirstOperatingFound(day + 1, span - 1, operatingDays, fallback, d);
    }
  }

  /** Every weekday occurs within any seven days. */
  lemma WeekdayWithinWeek(start: int, weekday: int) returns (day: int)
    requires 0 <= weekday <= 6
    ensures start <= day < start + 7 && WeekdayOf(day) == weekday
  {
    day := start + (weekday - WeekdayOf(start)) % 7;
  }

  /**
   * With any weekday to operate on, the closure falls on the first operating
   * day from its offset on; with none, it keeps its offset.
   */
  lemma ClosureDayIsFirst(start: int, operatingDays: set<int>)
    ensures var day := ClosureDay(start, operatingDays);
            if exists w :: 0 <= w <= 6 && w in operatingDays then
              start <= day < start + 7 && WeekdayOf(day) in operatingDays
              && forall k :: start <= k < day ==> WeekdayOf(k) !in operatingDays
            else
              day == start
  {
    hide WeekdayOf;
    if w :| 0 <= w <= 6 && w in operatingDays {
      var d := WeekdayWithinWeek(start, w);
      FirstOperatingFound(start, 7, operatingDays, start, d);
    } else {
      NoneOperating(start, 7, operatingDays, start);
    }
  }

  /** Where no day operates, the fallback is taken. */
  lemma {:induction false} NoneOperating(day: int, span: nat, operatingDays: set<int>, fallback: int)
    requires forall k :: day <= k < day + span ==> WeekdayOf(k) !in operatingDays
    ensures FirstOperating(day, span, operatingDays, fallback) == fallback
    decreases span
  {
    if span > 0 {
      NoneOperating(day + 1, span - 1, operatingDays, fallback);
    }
  }

  lemma WeekdayText(day: int)
    requires WireDay(day)
    ensures IsDatePattern(DayText(day)) && WeekdayOfText(DayText(day)) == WeekdayOf(day)
  {
    AddDaysText(day, 0);
    CivilRoundTrip(day);
    OverflowingDay(CivilOf(day), 0);
  }

  ghost predicate PlainWeek(start: int) {
    forall d :: start <= d < start + 7 ==> WireDay(d)
  }

  /** `resolveClosureDate`, for dates in the years 100 to 9999. */
  method ResolveClosureDate(today: string, dayOffset: int, operatingDays: seq<int>, ghost day: int)
      returns (date: string)
    requires today == DayText(day) && WireDay(day) && PlainWeek(day + dayOffset)
    ensures date == DayText(ClosureDay(day + dayOffset, set w | w in operatingDays))
  {
    hide DayText, AddDays, WeekdayOf, WeekdayOfText, WireDay, IsDatePattern, YearOf;
    ghost var days := set w | w in operatingDays;
    ghost var start := day + dayOffset;
    ShiftText(day, dayOffset);
    date := AddDays(today, dayOffset);
    var step := 0;
    while step < 7
      invariant 0 <= step <= 7
      invariant date == DayText(start + step)
      invariant ClosureDay(start, days) == FirstOperating(start + step, 7 - step, days, start)
    {
      assert WireDay(start + step);
      WeekdayText(start + step);
      if WeekdayOfText(date) in operatingDays {
        return date;
      }
      ShiftText(start + step, 1);
      date := AddDays(date, 1);
      step := step + 1;
    }
    date := AddDays(today, dayOffset);
  }

  lemma ShiftText(day: int, days: int)
    requires WireDay(day)
    ensures IsDatePattern(DayText(day)) && AddDays(DayText(day), days) == DayText(day + days)
  {
    AddDaysText(day, days);
  }
}
