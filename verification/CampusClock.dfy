/**
 * Instants are milliseconds since 1970-01-01T00:00Z; the campus clock runs
 * seven hours ahead of UTC and has no daylight saving.
 */
module CampusClock {
  import opened Calendar
  import opened Decimal
  import opened Wrappers

  const MINUTE_MS := 60_000
  const HOUR_MS := 3_600_000
  const DAY_MS := 86_400_000
  const CAMPUS_OFFSET_MS := 7 * HOUR_MS

  /** The instant of a whole campus hour on a day. */
  function HourMs(day: int, hour: int): int {
    day * DAY_MS + hour * HOUR_MS - CAMPUS_OFFSET_MS
  }

  function CampusDay(now: int): int {
    (now + CAMPUS_OFFSET_MS) / DAY_MS
  }

  /** Minutes since campus midnight, seconds truncated. */
  function CampusMinute(now: int): (m: int)
    ensures 0 <= m < 1440
  {
    (now + CAMPUS_OFFSET_MS) % DAY_MS / MINUTE_MS
  }

  /** `isFutureCampusTime` at a whole hour of a real date. */
  predicate IsFuture(day: int, hour: int, now: int) {
    HourMs(day, hour) > now
  }

  /**
   * The SQL predicate ENDS_AFTER_NOW: the date and time columns against the
   * campus date and the campus time truncated to minutes.
   */
  predicate EndsAfterNow(day: int, endHour: int, now: int) {
    day > CampusDay(now) || (day == CampusDay(now) && endHour * 60 > CampusMinute(now))
  }

  lemma CampusSplit(now: int)
    ensures var rest := (now + CAMPUS_OFFSET_MS) % DAY_MS;
            now + CAMPUS_OFFSET_MS == CampusDay(now) * DAY_MS + rest && 0 <= rest < DAY_MS
            && CampusMinute(now) * MINUTE_MS <= rest < (CampusMinute(now) + 1) * MINUTE_MS
  {
  }

  /** Truncating the clock to minutes loses nothing: the SQL predicate compares instants exactly. */
  lemma EndsAfterNowIsExact(day: int, endHour: int, now: int)
    requires 0 <= endHour <= 23
    ensures EndsAfterNow(day, endHour, now) <==> now < HourMs(day, endHour)
  {
  }

  // ------------------------------------------------------------------- text

  /** `HH:MM` of a minute of the day. */
  function TimeText(minute: nat): string {
    Padded(minute / 60, 2) + ":" + Padded(minute % 60, 2)
  }

  /** The minute of the day named by an `HH:MM` text. */
  function ReadTime(s: string): Option<nat> {
    if |s| == 5 && s[2] == ':' && AllDigits(s[..2]) && AllDigits(s[3..]) && Value(s[..2]) <= 23 && Value(s[3..]) <= 59
    then Some(60 * Value(s[..2]) + Value(s[3..]))
    else None
  }

  /** The day named by a `YYYY-MM-DD` text. */
  function ReadDate(s: string): Option<int> {
    if IsDatePattern(s) && IsReal(ParseDate(s)) then Some(DayNumber(ParseDate(s))) else None
  }

  /**
   * `new Date(`${date}T${time}:00+07:00`).getTime()`: None is NaN. The services
   * only pass dates that exist.
   */
  function CampusDateTimeMs(date: string, time: string): Option<int> {
    match (ReadDate(date), ReadTime(time))
    case (Some(day), Some(minute)) => Some(HourMs(day, 0) + minute * MINUTE_MS)
    case _ => None
  }

  /** `campusDateOf` */
  function CampusDateOf(now: int): string {
    DayText(CampusDay(now))
  }

  /** `campusTimeOf`: characters 11 to 15, which a six-digit year shifts to the day and the hour. */
  function CampusTimeOf(now: int): string {
    var c := CivilOf(CampusDay(now));
    var minute := CampusMinute(now);
    if FourDigitYear(c) then TimeText(minute) else Padded(c.day, 2) + "T" + Padded(minute / 60, 2)
  }

  lemma TimeTextRoundTrip(minute: nat)
    requires minute < 1440
    ensures ReadTime(TimeText(minute)) == Some(minute)
  {
    Pow10Values();
    ValueOfPadded(minute / 60, 2);
    ValueOfPadded(minute % 60, 2);
    var s := TimeText(minute);
    assert s[..2] == Padded(minute / 60, 2) && s[3..] == Padded(minute % 60, 2);
  }

  lemma DayTextRoundTrip(day: int)
    ensures ReadDate(DayText(day)) == if 0 <= YearOf(day) <= 9999 then Some(day) else None
  {
    var c := CivilOf(day);
    if FourDigitYear(c) {
      DateTextRoundTrip(c);
      CivilRoundTrip(day);
    } else {
      assert DayText(day)[0] == '+' || DayText(day)[0] == '-';
      assert IsDatePattern(DayText(day)) ==> IsDigit(DayText(day)[..4][0]);
    }
  }

  /** A whole hour of a day, written out and read back. */
  lemma HourTextInstant(day: int, hour: nat)
    requires 0 <= YearOf(day) <= 9999 && hour <= 23
    ensures CampusDateTimeMs(DayText(day), FormatHour(hour)) == Some(HourMs(day, hour))
  {
    hide ReadDate, ReadTime, TimeText, FormatHour, DayText;
    HourIsTime(hour);
    DayTextRoundTrip(day);
    TimeTextRoundTrip(hour * 60);
  }

  lemma HourIsTime(hour: nat)
    ensures FormatHour(hour) == TimeText(hour * 60)
  {
    assert Padded(0, 2) == "00";
    assert hour * 60 / 60 == hour && hour * 60 % 60 == 0;
  }

  lemma MinuteRemainder(t: int, minutes: int, rest: int)
    requires t == minutes * MINUTE_MS + rest && 0 <= rest < MINUTE_MS
    ensures t % MINUTE_MS == rest
  {
  }

  lemma FlooredInstant(now: int)
    ensures HourMs(CampusDay(now), 0) + CampusMinute(now) * MINUTE_MS == now - now % MINUTE_MS
  {
    CampusSplit(now);
    var day, minute := CampusDay(now), CampusMinute(now);
    hide CampusDay, CampusMinute;
    var rest := now - (HourMs(day, 0) + minute * MINUTE_MS);
    MinuteRemainder(now, day * 1440 - 420 + minute, rest);
  }

  /**
   * Reading the campus date and time of an instant back gives the start of its
   * minute, exactly when the campus year has four digits.
   */
  lemma CampusTextRoundTrip(now: int)
    ensures CampusDateTimeMs(CampusDateOf(now), CampusTimeOf(now))
         == if 0 <= YearOf(CampusDay(now)) <= 9999 then Some(now - now % MINUTE_MS) else None
  {
    hide ReadDate, ReadTime, TimeText, DayText, HourMs, CampusDay, CampusMinute;
    DayTextRoundTrip(CampusDay(now));
    TimeTextRoundTrip(CampusMinute(now));
    FlooredInstant(now);
  }

  /** Seven o'clock on campus is midnight UTC, and an instant belongs to the campus day whose hours hold it. */
  lemma CampusIsSevenAhead(day: int, now: int)
    ensures HourMs(day, 7) == 86_400_000 * day
    ensures CampusDay(now) == day <==> HourMs(day, 0) <= now < HourMs(day + 1, 0)
    ensures HourMs(CampusDay(now), 0) + CampusMinute(now) * 60_000 <= now
            < HourMs(CampusDay(now), 0) + (CampusMinute(now) + 1) * 60_000
  {
  }
}
