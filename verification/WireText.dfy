/** Dates, hours and instants as they travel in JSON, and the order of the keys built from them. */
module WireText {
  import opened Bookings
  import opened Calendar
  import opened CampusClock
  import opened Decimal

  predicate IsoYear(instant: int) {
    FourDigits(instant / DAY_MS)
  }

  /** A booking date came in as a pattern-checked text, so it prints back as that text. */
  lemma RequestedDateIsWire(s: string)
    requires IsDatePattern(s) && PassesDateCheck(ParseDate(s))
    ensures WireDay(DayNumber(ParseDate(s))) && DayText(DayNumber(ParseDate(s))) == s
  {
    ParsedDateText(s);
    DateCheckExact(ParseDate(s));
    DayNumberRoundTrip(ParseDate(s));
  }

  /** Day texts are ten characters and ordered as the days. */
  lemma DayTextOrder(a: int, b: int)
    requires FourDigits(a) && FourDigits(b)
    ensures Less(DayText(a), DayText(b)) <==> a < b
    ensures DayText(a) == DayText(b) <==> a == b
    ensures |DayText(a)| == 10 && |DayText(b)| == 10
  {
    CivilRoundTrip(a);
    CivilRoundTrip(b);
    DateTextOrder(CivilOf(a), CivilOf(b));
  }

  // -------------------------------------------------------------- instants

  function Clock(h: nat, m: nat, s: nat, ms: nat): string {
    Padded(h, 2) + (":" + (Padded(m, 2) + (":" + (Padded(s, 2) + ("." + (Padded(ms, 3) + "Z"))))))
  }

  /** The part of toISOString after the `T`. */
  function ClockText(msInDay: nat): string {
    Clock(msInDay / HOUR_MS, msInDay % HOUR_MS / MINUTE_MS, msInDay % MINUTE_MS / 1000, msInDay % 1000)
  }

  /** `toISOString()` in a four-digit year. */
  function IsoInstant(instant: int): string
    requires IsoYear(instant)
  {
    DayText(instant / DAY_MS) + ("T" + ClockText(instant % DAY_MS))
  }

  lemma SeparatorOrder(separator: string, a: string, b: string)
    requires |separator| == 1
    ensures Less(separator + a, separator + b) <==> Less(a, b)
  {
  }

  lemma Pow10Three()
    ensures Pow10(2) == 100 && Pow10(3) == 1000
  {
  }

  lemma MillisOrder(a: nat, b: nat)
    requires a < 1000 && b < 1000
    ensures Less(Padded(a, 3) + "Z", Padded(b, 3) + "Z") <==> a < b
  {
    Pow10Three();
    LessIrreflexive("Z");
    FieldOrder(Padded(a, 3) + "Z", Padded(b, 3) + "Z", a, b, 3, "Z", "Z");
  }

  /** A two-digit field and a separator before texts that are ordered as their numbers. */
  lemma NextFieldOrder(m: nat, n: nat, separator: string, tailA: string, tailB: string)
    requires m < 100 && n < 100 && |separator| == 1
    ensures Less(Padded(m, 2) + (separator + tailA), Padded(n, 2) + (separator + tailB))
            <==> m < n || (m == n && Less(tailA, tailB))
  {
    Pow10Three();
    SeparatorOrder(separator, tailA, tailB);
    FieldOrder(Padded(m, 2) + (separator + tailA), Padded(n, 2) + (separator + tailB), m, n, 2, separator + tailA,
               separator + tailB);
  }

  lemma ClockOrder(h: nat, m: nat, s: nat, ms: nat, h': nat, m': nat, s': nat, ms': nat)
    requires h < 24 && m < 60 && s < 60 && ms < 1000 && h' < 24 && m' < 60 && s' < 60 && ms' < 1000
    ensures Less(Clock(h, m, s, ms), Clock(h', m', s', ms'))
       <==> h < h' || (h == h' && (m < m' || (m == m' && (s < s' || (s == s' && ms < ms')))))
  {
    hide Less, Padded;
    var a3, b3 := Padded(ms, 3) + "Z", Padded(ms', 3) + "Z";
    MillisOrder(ms, ms');
    NextFieldOrder(s, s', ".", a3, b3);
    var a2, b2 := Padded(s, 2) + ("." + a3), Padded(s', 2) + ("." + b3);
    NextFieldOrder(m, m', ":", a2, b2);
    var a1, b1 := Padded(m, 2) + (":" + a2), Padded(m', 2) + (":" + b2);
    NextFieldOrder(h, h', ":", a1, b1);
  }

  lemma ClockFields(t: nat)
    requires t < DAY_MS
    ensures t / HOUR_MS < 24 && t % HOUR_MS / MINUTE_MS < 60 && t % MINUTE_MS / 1000 < 60 && t % 1000 < 1000
    ensures t == t / HOUR_MS * HOUR_MS + t % HOUR_MS / MINUTE_MS * MINUTE_MS + t % MINUTE_MS / 1000 * 1000 + t % 1000
  {
  }

  lemma FieldsOrder(h: nat, m: nat, s: nat, ms: nat, h': nat, m': nat, s': nat, ms': nat)
    requires h < 24 && m < 60 && s < 60 && ms < 1000 && h' < 24 && m' < 60 && s' < 60 && ms' < 1000
    ensures h * HOUR_MS + m * MINUTE_MS + s * 1000 + ms < h' * HOUR_MS + m' * MINUTE_MS + s' * 1000 + ms'
       <==> h < h' || (h == h' && (m < m' || (m == m' && (s < s' || (s == s' && ms < ms')))))
  {
  }

  lemma ClockTextOrder(a: nat, b: nat)
    requires a < DAY_MS && b < DAY_MS
    ensures Less(ClockText(a), ClockText(b)) <==> a < b
  {
    hide Less, Clock;
    ClockFields(a);
    ClockFields(b);
    var h, m, s, ms := a / HOUR_MS, a % HOUR_MS / MINUTE_MS, a % MINUTE_MS / 1000, a % 1000;
    var h', m', s', ms' := b / HOUR_MS, b % HOUR_MS / MINUTE_MS, b % MINUTE_MS / 1000, b % 1000;
    ClockOrder(h, m, s, ms, h', m', s', ms');
    FieldsOrder(h, m, s, ms, h', m', s', ms');
  }

  /** ISO texts of instants are ordered as the instants. */
  lemma IsoInstantOrder(a: int, b: int)
    requires IsoYear(a) && IsoYear(b)
    ensures Less(IsoInstant(a), IsoInstant(b)) <==> a < b
  {
    hide Less, ClockText, DayText;
    var x, y := a / DAY_MS, b / DAY_MS;
    DayTextOrder(x, y);
    SeparatorOrder("T", ClockText(a % DAY_MS), ClockText(b % DAY_MS));
    LessOfConcat(DayText(x), "T" + ClockText(a % DAY_MS), DayText(y), "T" + ClockText(b % DAY_MS));
    ClockTextOrder(a % DAY_MS, b % DAY_MS);
    assert a == x * DAY_MS + a % DAY_MS && b == y * DAY_MS + b % DAY_MS;
  }

  // -------------------------------------------------------------- sort keys

  /** `${date}T${startTime}` */
  function StartText(b: Booking): string {
    DayText(b.date) + ("T" + FormatHour(b.startHour))
  }

  predicate StartsBefore(a: Booking, b: Booking) {
    a.date < b.date || (a.date == b.date && a.startHour < b.startHour)
  }

  lemma StartTextOrder(a: Booking, b: Booking)
    requires WireDay(a.date) && WireDay(b.date) && a.startHour <= 23 && b.startHour <= 23
    ensures Less(StartText(a), StartText(b)) <==> StartsBefore(a, b)
  {
    hide Less, FormatHour, DayText;
    DayTextOrder(a.date, b.date);
    HourTextOrder(a.startHour, b.startHour);
    SeparatorOrder("T", FormatHour(a.startHour), FormatHour(b.startHour));
    LessOfConcat(DayText(a.date), "T" + FormatHour(a.startHour), DayText(b.date), "T" + FormatHour(b.startHour));
  }

  /** `${startTime}:${createdAt}` */
  function ScheduleKey(startHour: nat, createdAt: int): string
    requires IsoYear(createdAt)
  {
    FormatHour(startHour) + (":" + IsoInstant(createdAt))
  }

  lemma ScheduleKeyOrder(h: nat, t: int, h': nat, t': int)
    requires h <= 23 && h' <= 23 && IsoYear(t) && IsoYear(t')
    ensures Less(ScheduleKey(h, t), ScheduleKey(h', t')) <==> h < h' || (h == h' && t < t')
  {
    hide Less, IsoInstant;
    HourTextOrder(h, h');
    IsoInstantOrder(t, t');
    SeparatorOrder(":", IsoInstant(t), IsoInstant(t'));
    LessOfConcat(FormatHour(h), ":" + IsoInstant(t), FormatHour(h'), ":" + IsoInstant(t'));
  }

  /** `${date}:${startTime}:${createdAt}` */
  function OperationsKey(date: int, startHour: nat, createdAt: int): string
    requires IsoYear(createdAt)
  {
    DayText(date) + (":" + ScheduleKey(startHour, createdAt))
  }

  lemma OperationsKeyOrder(a: Booking, b: Booking)
    requires WireDay(a.date) && WireDay(b.date) && IsoYear(a.createdAt) && IsoYear(b.createdAt)
    requires a.startHour <= 23 && b.startHour <= 23
    ensures Less(OperationsKey(a.date, a.startHour, a.createdAt), OperationsKey(b.date, b.startHour, b.createdAt))
       <==> StartsBefore(a, b) || (a.date == b.date && a.startHour == b.startHour && a.createdAt < b.createdAt)
  {
    hide Less, DayText, ScheduleKey, IsoYear;
    var x, y := ScheduleKey(a.startHour, a.createdAt), ScheduleKey(b.startHour, b.createdAt);
    DayTextOrder(a.date, b.date);
    ScheduleKeyOrder(a.startHour, a.createdAt, b.startHour, b.createdAt);
    SeparatorOrder(":", x, y);
    LessOfConcat(DayText(a.date), ":" + x, DayText(b.date), ":" + y);
  }
}
