/**
 * The proleptic Gregorian calendar as ECMA-262 section 21.4.1 computes it, and
 * the date strings the repository exchanges. Day 0 is 1970-01-01.
 */
module Calendar {
  import opened Decimal

  datatype Civil = Civil(year: int, month: nat, day: nat)

  /** What the split text of a date with four year digits can hold. */
  type WrittenDate = c: Civil | 0 <= c.year <= 9999 witness Civil(2026, 9, 1)

  predicate IsLeap(year: int) {
    year % 4 == 0 && (year % 100 != 0 || year % 400 == 0)
  }

  function DaysInYear(year: int): int {
    if IsLeap(year) then 366 else 365
  }

  function DaysInMonth(year: int, month: int): int {
    if month == 2 then if IsLeap(year) then 29 else 28
    else if month == 4 || month == 6 || month == 9 || month == 11 then 30
    else 31
  }

  /** A date that exists. */
  predicate IsReal(c: Civil) {
    1 <= c.month <= 12 && 1 <= c.day <= DaysInMonth(c.year, c.month)
  }

  /** The day on which a year starts. */
  function DayFromYear(year: int): int
    decreases if year < 1970 then 1970 - year else year - 1970
  {
    if year == 1970 then 0
    else if year > 1970 then DayFromYear(year - 1) + DaysInYear(year - 1)
    else DayFromYear(year + 1) - DaysInYear(year)
  }

  /** Days of the year before the first of `month`; month 13 is the next January. */
  function DaysBeforeMonth(year: int, month: int): int
    requires 1 <= month <= 13
    decreases month
  {
    if month == 1 then 0 else DaysBeforeMonth(year, month - 1) + DaysInMonth(year, month - 1)
  }

  /** MakeDay of ECMA-262: a zero-based month and a day of the month may both overflow. */
  function MakeDay(year: int, month0: int, date: int): int {
    var y := year + month0 / 12;
    DayFromYear(y) + DaysBeforeMonth(y, month0 % 12 + 1) + date - 1
  }

  function DayNumber(c: Civil): int {
    MakeDay(c.year, c.month - 1, c.day)
  }

  lemma YearLength(year: int)
    ensures DayFromYear(year + 1) == DayFromYear(year) + DaysInYear(year)
  {
  }

  /** DayFromYear as the formula of ECMA-262; `/` floors because the divisors are positive. */
  function EcmaDayFromYear(year: int): int {
    365 * (year - 1970) + (year - 1969) / 4 - (year - 1901) / 100 + (year - 1601) / 400
  }

  lemma FourthYears(year: int)
    ensures (year + 1 - 1969) / 4 == (year - 1969) / 4 + if year % 4 == 0 then 1 else 0
  {
  }

  lemma HundredthYears(year: int)
    ensures (year + 1 - 1901) / 100 == (year - 1901) / 100 + if year % 100 == 0 then 1 else 0
    ensures year % 100 == 0 ==> year % 4 == 0
  {
  }

  lemma FourHundredthYears(year: int)
    ensures (year + 1 - 1601) / 400 == (year - 1601) / 400 + if year % 400 == 0 then 1 else 0
    ensures year % 400 == 0 ==> year % 100 == 0
  {
  }

  lemma EcmaYearLength(year: int)
    ensures EcmaDayFromYear(year + 1) == EcmaDayFromYear(year) + DaysInYear(year)
  {
    FourthYears(year);
    HundredthYears(year);
    FourHundredthYears(year);
    var a, b, c := year % 4 == 0, year % 100 == 0, year % 400 == 0;
    assert DaysInYear(year) == 365 + (if a then 1 else 0) - (if b then 1 else 0) + (if c then 1 else 0);
  }

  /** Adding up year lengths agrees with the closed formula for every year. */
  lemma {:induction false} DayFromYearFormula(year: int)
    ensures DayFromYear(year) == EcmaDayFromYear(year)
    decreases if year < 1970 then 1970 - year else year - 1970
  {
    if year > 1970 {
      DayFromYearFormula(year - 1);
      EcmaYearLength(year - 1);
    } else if year < 1970 {
      DayFromYearFormula(year + 1);
      EcmaYearLength(year);
    }
  }

  lemma {:induction false} YearsIncrease(a: int, b: int)
    requires a <= b
    ensures DayFromYear(a) + (b - a) * 365 <= DayFromYear(b)
    decreases b - a
  {
    if a < b {
      YearsIncrease(a, b - 1);
      YearLength(b - 1);
    }
  }

  lemma MonthsFillYear(year: int)
    ensures DaysBeforeMonth(year, 13) == DaysInYear(year)
  {
  }

  lemma {:induction false} MonthsIncrease(year: int, m: int, n: int)
    requires 1 <= m < n <= 13
    ensures DaysBeforeMonth(year, m) + DaysInMonth(year, m) <= DaysBeforeMonth(year, n)
    decreases n
  {
    if m < n - 1 {
      MonthsIncrease(year, m, n - 1);
    }
  }

  /** YearFromTime of ECMA-262, searched upwards from a year that has begun. */
  function YearFrom(day: int, year: int): (y: int)
    requires DayFromYear(year) <= day
    ensures DayFromYear(y) <= day < DayFromYear(y + 1)
    decreases day - DayFromYear(year)
  {
    YearLength(year);
    if day < DayFromYear(year + 1) then year else YearFrom(day, year + 1)
  }

  function YearOf(day: int): (y: int)
    ensures DayFromYear(y) <= day < DayFromYear(y + 1)
  {
    if day >= 0 then YearFrom(day, 1970)
    else
      YearsIncrease(1970 + day, 1970);
      YearFrom(day, 1970 + day)
  }

  /** The year prints with four digits. */
  predicate FourDigits(day: int) {
    0 <= YearOf(day) <= 9999
  }

  /** The year prints with four digits and survives `Date.UTC`. */
  predicate WireDay(day: int) {
    100 <= YearOf(day) <= 9999
  }

  /** MonthFromTime of ECMA-262, for a day of the year. */
  function MonthFrom(year: int, dayInYear: int, month: int): (m: int)
    requires 1 <= month <= 12
    requires DaysBeforeMonth(year, month) <= dayInYear < DaysInYear(year)
    ensures month <= m <= 12
    ensures DaysBeforeMonth(year, m) <= dayInYear < DaysBeforeMonth(year, m + 1)
    decreases 12 - month
  {
    MonthsFillYear(year);
    if dayInYear < DaysBeforeMonth(year, month + 1) then month else MonthFrom(year, dayInYear, month + 1)
  }

  /** getUTCMonth + 1 and getUTCDate of a day within a year. */
  function CivilIn(year: int, dayInYear: int): (c: Civil)
    requires 0 <= dayInYear < DaysInYear(year)
    ensures c.year == year && IsReal(c) && DaysBeforeMonth(year, c.month) + c.day - 1 == dayInYear
  {
    var m := MonthFrom(year, dayInYear, 1);
    assert DaysBeforeMonth(year, m + 1) == DaysBeforeMonth(year, m) + DaysInMonth(year, m);
    Civil(year, m, dayInYear - DaysBeforeMonth(year, m) + 1)
  }

  /** getUTCFullYear, getUTCMonth + 1 and getUTCDate of a day. */
  function CivilOf(day: int): (c: Civil)
    ensures c.year == YearOf(day) && IsReal(c)
  {
    var y := YearOf(day);
    YearLength(y);
    CivilIn(y, day - DayFromYear(y))
  }

  /** getUTCDay: Sunday is 0. */
  function WeekdayOf(day: int): (w: int)
    ensures 0 <= w <= 6
  {
    (day + 4) % 7
  }

  lemma MakeDayInYear(year: int, month: int, date: int)
    requires 1 <= month <= 12
    ensures MakeDay(year, month - 1, date) == DayFromYear(year) + DaysBeforeMonth(year, month) + date - 1
  {
    MonthOfYear(month - 1);
    hide DayFromYear, DaysBeforeMonth;
  }

  lemma MonthOfYear(month0: int)
    requires 0 <= month0 < 12
    ensures month0 / 12 == 0 && month0 % 12 == month0
  {
  }

  /** Every day has a real date, and that date leads back to the day. */
  lemma CivilRoundTrip(day: int)
    ensures DayNumber(CivilOf(day)) == day
  {
    MakeDayInYear(YearOf(day), CivilOf(day).month, CivilOf(day).day);
  }

  lemma DayInYearBounds(c: Civil)
    requires IsReal(c)
    ensures DayNumber(c) == DayFromYear(c.year) + DaysBeforeMonth(c.year, c.month) + c.day - 1
    ensures DayFromYear(c.year) <= DayNumber(c) < DayFromYear(c.year + 1)
  {
    MakeDayInYear(c.year, c.month, c.day);
    YearLength(c.year);
    MonthsFillYear(c.year);
    MonthsIncrease(c.year, c.month, 13);
    if c.month > 1 {
      MonthsIncrease(c.year, 1, c.month);
    }
  }

  /** Calendar order on components. */
  predicate Before(a: Civil, b: Civil) {
    a.year < b.year || (a.year == b.year && (a.month < b.month || (a.month == b.month && a.day < b.day)))
  }

  lemma EarlierDayNumber(a: Civil, b: Civil)
    requires IsReal(a) && IsReal(b) && Before(a, b)
    ensures DayNumber(a) < DayNumber(b)
  {
    DayInYearBounds(a);
    DayInYearBounds(b);
    if a.year < b.year {
      YearsIncrease(a.year + 1, b.year);
    } else if a.month < b.month {
      MonthsIncrease(a.year, a.month, b.month);
    }
  }

  /** Day numbers order real dates exactly as the calendar does. */
  lemma DayNumberOrder(a: Civil, b: Civil)
    requires IsReal(a) && IsReal(b)
    ensures DayNumber(a) < DayNumber(b) <==> Before(a, b)
    ensures DayNumber(a) == DayNumber(b) <==> a == b
  {
    if Before(a, b) {
      EarlierDayNumber(a, b);
    } else if Before(b, a) {
      EarlierDayNumber(b, a);
    }
  }

  lemma DayNumberRoundTrip(c: Civil)
    requires IsReal(c)
    ensures CivilOf(DayNumber(c)) == c
  {
    CivilRoundTrip(DayNumber(c));
    DayNumberOrder(c, CivilOf(DayNumber(c)));
  }

  // ---------------------------------------------------------------- Date.UTC

  /** The day of `Date.UTC(year, month - 1, date)`: years 0 to 99 mean 1900 to 1999. */
  function UtcDay(year: int, month: int, date: int): int {
    MakeDay(if 0 <= year <= 99 then 1900 + year else year, month - 1, date)
  }

  /** The round trip through `Date.UTC` by which the services recognise a real date. */
  predicate PassesDateCheck(c: Civil) {
    CivilOf(UtcDay(c.year, c.month, c.day)) == c
  }

  lemma RealMonthDay(year: int, month: int, date: int)
    requires 1 <= month <= 12 && 1 <= date
    ensures MakeDay(year, month - 1, date) >= DayFromYear(year)
  {
  }

  lemma EarlyYearReadsLater(c: Civil)
    requires IsReal(c) && 0 <= c.year <= 99
    ensures YearOf(UtcDay(c.year, c.month, c.day)) > 99
  {
    hide MakeDay, DayFromYear, YearOf;
    var day := UtcDay(c.year, c.month, c.day);
    RealMonthDay(1900 + c.year, c.month, c.day);
    var y := YearOf(day);
    if y < 1900 + c.year {
      YearsIncrease(y + 1, 1900 + c.year);
    }
  }

  /** The check accepts exactly the real dates outside the years 0 to 99. */
  lemma DateCheckExact(c: Civil)
    ensures PassesDateCheck(c) <==> IsReal(c) && !(0 <= c.year <= 99)
  {
    if !IsReal(c) {
    } else if 0 <= c.year <= 99 {
      EarlyYearReadsLater(c);
    } else {
      DayNumberRoundTrip(c);
    }
  }

  // ------------------------------------------------------------ date strings

  /** `/^\d{4}-\d{2}-\d{2}$/` */
  predicate IsDatePattern(s: string) {
    |s| == 10 && s[4] == '-' && s[7] == '-'
    && AllDigits(s[..4]) && AllDigits(s[5..7]) && AllDigits(s[8..])
  }

  /** `s.split('-').map(Number)` */
  function ParseDate(s: string): (c: Civil)
    requires IsDatePattern(s)
  {
    Civil(Value(s[..4]), Value(s[5..7]), Value(s[8..]))
  }

  /** The `YYYY-MM-DD` prefix of toISOString, for years of four digits. */
  function FormatDate(c: Civil): string
    requires 0 <= c.year
  {
    Padded(c.year, 4) + "-" + Padded(c.month, 2) + "-" + Padded(c.day, 2)
  }

  predicate FourDigitYear(c: Civil) {
    0 <= c.year <= 9999
  }

  lemma Pow10Values()
    ensures Pow10(2) == 100 && Pow10(4) == 10000 && Pow10(6) == 1000000
  {
  }

  /** Printing and parsing a real date undo each other. */
  lemma DateTextRoundTrip(c: Civil)
    requires IsReal(c) && FourDigitYear(c)
    ensures IsDatePattern(FormatDate(c)) && ParseDate(FormatDate(c)) == c
  {
    Pow10Values();
    var y, m, d := Padded(c.year, 4), Padded(c.month, 2), Padded(c.day, 2);
    ValueOfPadded(c.year, 4);
    ValueOfPadded(c.month, 2);
    ValueOfPadded(c.day, 2);
    DateTextParts(y, m, d);
    hide Padded, Value, Pow10, AllDigits;
  }

  lemma DateTextParts(y: string, m: string, d: string)
    requires |y| == 4 && |m| == 2 && |d| == 2
    ensures var s := y + "-" + m + "-" + d;
            |s| == 10 && s[4] == '-' && s[7] == '-' && s[..4] == y && s[5..7] == m && s[8..] == d
  {
  }

  lemma ParsedDateText(s: string)
    requires IsDatePattern(s)
    ensures var c := ParseDate(s); 0 <= c.year <= 9999 && 0 <= c.month <= 99 && 0 <= c.day <= 99 && FormatDate(c) == s
  {
    Pow10Values();
    PaddedOfValue(s[..4]);
    PaddedOfValue(s[5..7]);
    PaddedOfValue(s[8..]);
    assert s == s[..4] + "-" + s[5..7] + "-" + s[8..];
  }

  lemma FieldOrder(a: string, b: string, m: nat, n: nat, width: nat, tailA: string, tailB: string)
    requires m < Pow10(width) && n < Pow10(width)
    requires a == Padded(m, width) + tailA && b == Padded(n, width) + tailB
    ensures Less(a, b) <==> m < n || (m == n && Less(tailA, tailB))
  {
    PaddedOrder(m, n, width);
    LessOfConcat(Padded(m, width), tailA, Padded(n, width), tailB);
  }

  lemma DashOrder(a: string, b: string)
    ensures Less("-" + a, "-" + b) <==> Less(a, b)
  {
  }

  lemma DateTextOrderOnFields(a: Civil, b: Civil)
    requires FourDigitYear(a) && FourDigitYear(b) && a.month <= 99 && b.month <= 99 && a.day <= 99 && b.day <= 99
    ensures Less(FormatDate(a), FormatDate(b)) <==> Before(a, b)
  {
    Pow10Values();
    var da, db := Padded(a.day, 2), Padded(b.day, 2);
    var ma, mb := Padded(a.month, 2) + ("-" + da), Padded(b.month, 2) + ("-" + db);
    PaddedOrder(a.day, b.day, 2);
    DashOrder(da, db);
    FieldOrder(ma, mb, a.month, b.month, 2, "-" + da, "-" + db);
    DashOrder(ma, mb);
    assert FormatDate(a) == Padded(a.year, 4) + ("-" + ma) && FormatDate(b) == Padded(b.year, 4) + ("-" + mb);
    FieldOrder(FormatDate(a), FormatDate(b), a.year, b.year, 4, "-" + ma, "-" + mb);
  }

  /** Comparing date strings, as the services do, compares day numbers. */
  lemma DateTextOrder(a: Civil, b: Civil)
    requires IsReal(a) && IsReal(b) && FourDigitYear(a) && FourDigitYear(b)
    ensures Less(FormatDate(a), FormatDate(b)) <==> DayNumber(a) < DayNumber(b)
    ensures FormatDate(a) == FormatDate(b) <==> DayNumber(a) == DayNumber(b)
  {
    DateTextOrderOnFields(a, b);
    DateTextRoundTrip(a);
    DateTextRoundTrip(b);
    DayNumberOrder(a, b);
  }

  // ------------------------------------------------------------ hour strings

  /** `HH:00` */
  function FormatHour(hour: nat): string {
    Padded(hour, 2) + ":00"
  }

  /** Comparing whole-hour strings, as the services do, compares hours. */
  lemma HourTextOrder(a: nat, b: nat)
    requires a <= 23 && b <= 23
    ensures Less(FormatHour(a), FormatHour(b)) <==> a < b
    ensures FormatHour(a) == FormatHour(b) <==> a == b
  {
    Pow10Values();
    PaddedOrder(a, b, 2);
    LessOfConcat(Padded(a, 2), ":00", Padded(b, 2), ":00");
    LessIrreflexive(":00");
    assert FormatHour(a)[..2] == Padded(a, 2) && FormatHour(b)[..2] == Padded(b, 2);
  }

  /** `toISOString().slice(0, 10)`: a year outside 0 to 9999 prints a sign and six digits. */
  function IsoDateText(c: Civil): string {
    if FourDigitYear(c) then FormatDate(c)
    else
      var (sign, years) := if c.year < 0 then ('-', -c.year) else ('+', c.year);
      [sign] + Padded(years, 6) + "-" + Padded(c.month, 2)
  }

  /** `new Date(Date.UTC(y, m - 1, d + days)).toISOString().slice(0, 10)` */
  function AddDays(date: string, days: int): string
    requires IsDatePattern(date)
  {
    var c := ParseDate(date);
    IsoDateText(CivilOf(UtcDay(c.year, c.month, c.day + days)))
  }

  /** The text of a day. */
  function DayText(day: int): string {
    IsoDateText(CivilOf(day))
  }

  /** What each month adds to the weekday, in years that start in March. */
  const MONTH_OFFSETS := [0, 3, 2, 5, 0, 3, 5, 1, 4, 6, 2, 4]

  /** The leap days up to the end of a year. */
  function LeapDays(year: int): int {
    year / 4 - year / 100 + year / 400
  }

  lemma Fourths(n: int)
    ensures (n - 1968) / 4 == n / 4 - 492
  {
  }

  lemma Hundredths(n: int)
    ensures (n - 1900) / 100 == n / 100 - 19
  {
  }

  lemma FourHundredths(n: int)
    ensures (n - 1600) / 400 == n / 400 - 4
  {
  }

  lemma YearsBefore(year: int)
    ensures EcmaDayFromYear(year) == 365 * (year - 1970) - 477 + LeapDays(year - 1)
  {
    Fourths(year - 1);
    Hundredths(year - 1);
    FourHundredths(year - 1);
  }

  lemma LeapStep(year: int)
    ensures LeapDays(year) == LeapDays(year - 1) + if IsLeap(year) then 1 else 0
  {
    YearsBefore(year);
    YearsBefore(year + 1);
    EcmaYearLength(year);
    hide EcmaDayFromYear, LeapDays, IsLeap;
  }

  lemma {:induction false} MonthStarts(year: int, month: int) returns (weeks: int)
    requires 1 <= month <= 12
    ensures DaysBeforeMonth(year, month)
         == 7 * weeks + MONTH_OFFSETS[month - 1] + if month < 3 then 0 else if IsLeap(year) then 2 else 1
    decreases month
  {
    if month == 1 {
      weeks := 0;
    } else {
      var before := MonthStarts(year, month - 1);
      var days := MONTH_OFFSETS[month - 2] + DaysInMonth(year, month - 1) - MONTH_OFFSETS[month - 1];
      weeks := before + (days - if month == 3 then DaysInMonth(year, 2) - 27 else 0) / 7;
    }
  }

  lemma WeeksBetween(c: Civil) returns (weeks: int)
    requires IsReal(c)
    ensures var y := if c.month < 3 then c.year - 1 else c.year;
            DayNumber(c) + 4 == y + LeapDays(y) + MONTH_OFFSETS[c.month - 1] + c.day + 7 * weeks
  {
    DayFromYearFormula(c.year);
    YearsBefore(c.year);
    LeapStep(c.year);
    var months := MonthStarts(c.year, c.month);
    MakeDayInYear(c.year, c.month, c.day);
    hide LeapDays, DayFromYear, EcmaDayFromYear, DaysBeforeMonth, IsLeap, MakeDay;
    weeks := 52 * (c.year - 1970) + months - 349;
  }

  /** The weekday of a date, by the congruence over years that start in March. */
  lemma WeekdayOfDate(c: Civil)
    requires IsReal(c)
    ensures var y := if c.month < 3 then c.year - 1 else c.year;
            WeekdayOf(DayNumber(c)) == (y + y / 4 - y / 100 + y / 400 + MONTH_OFFSETS[c.month - 1] + c.day) % 7
  {
    var weeks := WeeksBetween(c);
    var y := if c.month < 3 then c.year - 1 else c.year;
    assert LeapDays(y) == y / 4 - y / 100 + y / 400;
    hide LeapDays, DayNumber;
    WholeWeeks(y + LeapDays(y) + MONTH_OFFSETS[c.month - 1] + c.day, weeks);
  }

  lemma WholeWeeks(n: int, weeks: int)
    ensures (n + 7 * weeks) % 7 == n % 7
  {
  }

  lemma OverflowingDay(c: Civil, days: int)
    requires IsReal(c) && c.year >= 100
    ensures UtcDay(c.year, c.month, c.day + days) == DayNumber(c) + days
  {
  }

  /** Adding days to the text of a day gives the text of the later day. */
  lemma AddDaysText(day: int, days: int)
    requires 100 <= YearOf(day) <= 9999
    ensures IsDatePattern(DayText(day)) && AddDays(DayText(day), days) == DayText(day + days)
    ensures ParseDate(DayText(day)) == CivilOf(day)
  {
    hide YearOf, CivilOf, DayNumber, IsReal, FormatDate, IsDatePattern, ParseDate, AddDays;
    DateTextRoundTrip(CivilOf(day));
    CivilRoundTrip(day);
    AddDaysOf(CivilOf(day), days);
  }

  lemma AddDaysOf(c: Civil, days: int)
    requires IsReal(c) && 100 <= c.year <= 9999
    ensures IsDatePattern(FormatDate(c)) && AddDays(FormatDate(c), days) == DayText(DayNumber(c) + days)
  {
    hide CivilOf, UtcDay, DayNumber, IsReal, FormatDate, IsDatePattern, ParseDate, IsoDateText;
    DateTextRoundTrip(c);
    OverflowingDay(c, days);
  }
}
