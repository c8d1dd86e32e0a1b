/** The analytics summary and the frontend parser that reads it. */
module Analytics {
  import opened Arithmetic
  import opened Bookings
  import opened Calendar
  import opened Capacity
  import opened CampusClock
  import opened Decimal
  import opened Resources
  import opened StaffQueues
  import opened Tallies
  import opened Timeline
  import opened WireText
  import opened Wrappers

  datatype StatusShare = StatusShare(status: Status, count: nat, percentage: nat)

  datatype PeakHour = PeakHour(hour: nat, text: string, bookingCount: nat)

  /** AnalyticsResponseDto; rates are in tenths of a percent. */
  datatype Summary = Summary(
    from: string,
    to: string,
    totalBookings: nat,
    cancelledBookings: nat,
    cancellationRate: nat,
    scheduledHours: nat,
    capacityHours: int,
    utilizationRate: Option<nat>,
    resourcesRepresented: nat,
    statuses: seq<StatusShare>,
    popularResources: seq<PopularRow>,
    peakHours: seq<PeakHour>)

  /** `Math.round((numerator / denominator) * 1000)`, in exact arithmetic. */
  function Percentage(numerator: nat, denominator: nat): nat {
    if denominator == 0 then 0 else (2000 * numerator + denominator) / (2 * denominator)
  }

  lemma PercentageBound(numerator: nat, denominator: nat)
    requires numerator <= denominator
    ensures Percentage(numerator, denominator) <= 1000
  {
    if denominator > 0 {
      QuotientBelow(2000 * numerator + denominator, 2 * denominator, 1001);
    }
  }

  // ----------------------------------------------------------------- response

  function Share(rows: seq<Stored>, status: Status, total: nat): StatusShare {
    StatusShare(status, Sum(rows, WithStatus(status)), Percentage(Sum(rows, WithStatus(status)), total))
  }

  function Labelled(p: PeakRow): PeakHour {
    PeakHour(p.hour, Padded(p.hour, 2) + ":00", p.bookingCount)
  }

  function FirstFive(popular: seq<PopularRow>): seq<PopularRow> {
    if |popular| <= 5 then popular else popular[..5]
  }

  function ActiveIds(catalog: seq<ResourceHours>): set<Id> {
    set r | r in catalog :: r.id
  }

  /** What `getSummary` returns for the answers of its queries. */
  function SummaryOf(from: int, to: int, rows: seq<Stored>, popular: seq<PopularRow>, catalog: seq<ResourceHours>,
                     closed: set<(Id, int)>)
    : Summary
  {
    var total := StatusTotal(rows);
    var cancelled := Sum(rows, WithStatus(Cancelled));
    var scheduled := Sum(rows, ScheduledOn(ActiveIds(catalog)));
    var capacity := TotalCapacity(catalog, from, to, closed);
    var order := StatusOrder();
    Summary(DayText(from), DayText(to), total, cancelled, Percentage(cancelled, total), scheduled, capacity,
            if capacity <= 0 then None else Some(Percentage(scheduled, capacity)),
            |popular|,
            seq(|order|, i requires 0 <= i < |order| => Share(rows, order[i], total)),
            FirstFive(popular),
            seq(|Peaks(rows)|, i requires 0 <= i < |Peaks(rows)| => Labelled(Peaks(rows)[i])))
  }

  function IdsBetween(table: map<Id, Booking>, from: int, to: int): set<Id> {
    set id | id in table && from <= table[id].date <= to
  }

  /** The answers of the queries over one snapshot of the tables, closure dates in whatever text the driver gives. */
  ghost predicate Answers(db: Database, from: int, to: int, rows: seq<Stored>, popular: seq<PopularRow>,
                          catalog: seq<ResourceHours>, closures: ClosureRows)
  {
    Selects(db.bookings, IdsBetween(db.bookings, from, to), rows)
    && PopularRows(db.resources, rows, popular)
    && (forall i, j :: 0 <= i < j < |catalog| ==> catalog[i].id != catalog[j].id)
    && (forall r :: r in catalog ==>
          r.id in db.resources && db.resources[r.id].status == Active && r == HoursOf(r.id, db.resources[r.id]))
    && (forall id :: id in db.resources && db.resources[id].status == Active ==>
          HoursOf(id, db.resources[id]) in catalog)
    && (forall c :: c in closures ==> exists day :: from <= day <= to && db.Closed(c.0, day))
    && (forall id: Id, day :: from <= day <= to && db.Closed(id, day) ==> exists text :: (id, text) in closures)
  }

  function HoursOf(id: Id, r: Resource): ResourceHours {
    ResourceHours(id, r.operatingDays, r.opensAt, r.closesAt, r.createdAt)
  }

  /** `getSummary` for the answers of its queries. */
  method GetSummary(from: int, to: int, rows: seq<Stored>, popular: seq<PopularRow>, catalog: seq<ResourceHours>,
                    closures: ClosureRows)
    returns (summary: Summary)
    requires FourDigits(from) && FourDigits(to)
    requires forall r :: r in catalog ==> r.opensAt < r.closesAt && FourDigits(CampusDay(r.createdAt))
    ensures summary == SummaryOf(from, to, rows, popular, catalog, NamedDays(closures, from, to))
  {
    hide FourDigits, DayText, TotalCapacity, Sum, Peaks, Percentage;
    var totalBookings, statuses := 0, [];
    var order := StatusOrder();
    for i := 0 to |order|
      invariant totalBookings == CountUpTo(rows, i)
    {
      totalBookings := totalBookings + Sum(rows, WithStatus(order[i]));
    }
    CountAll(rows);
    for i := 0 to |order|
      invariant |statuses| == i
      invariant forall k :: 0 <= k < i ==> statuses[k] == Share(rows, order[k], totalBookings)
    {
      statuses := statuses + [Share(rows, order[i], totalBookings)];
    }
    var capacity := CapacityHours(from, to, catalog, closures);
    CapacityNotNegative(catalog, from, to, NamedDays(closures, from, to));
    var scheduled := Sum(rows, ScheduledOn(ActiveIds(catalog)));
    var cancelled := Sum(rows, WithStatus(Cancelled));
    var peaks := Peaks(rows);
    summary := Summary(DayText(from), DayText(to), totalBookings, cancelled, Percentage(cancelled, totalBookings),
                       scheduled, capacity, if capacity == 0 then None else Some(Percentage(scheduled, capacity)),
                       |popular|, statuses, FirstFive(popular),
                       seq(|peaks|, i requires 0 <= i < |peaks| => Labelled(peaks[i])));
  }

  function CountUpTo(rows: seq<Stored>, n: nat): nat
    requires n <= 7
  {
    if n == 0 then 0 else CountUpTo(rows, n - 1) + Sum(rows, WithStatus(StatusOrder()[n - 1]))
  }

  lemma CountAll(rows: seq<Stored>)
    ensures CountUpTo(rows, 7) == StatusTotal(rows)
  {
    hide Sum;
    assert CountUpTo(rows, 1) == CountUpTo(rows, 0) + Sum(rows, WithStatus(Pending));
    assert CountUpTo(rows, 2) == CountUpTo(rows, 1) + Sum(rows, WithStatus(Confirmed));
    assert CountUpTo(rows, 3) == CountUpTo(rows, 2) + Sum(rows, WithStatus(CheckedIn));
    assert CountUpTo(rows, 4) == CountUpTo(rows, 3) + Sum(rows, WithStatus(Completed));
    assert CountUpTo(rows, 5) == CountUpTo(rows, 4) + Sum(rows, WithStatus(NoShow));
    assert CountUpTo(rows, 6) == CountUpTo(rows, 5) + Sum(rows, WithStatus(Rejected));
    assert CountUpTo(rows, 7) == CountUpTo(rows, 6) + Sum(rows, WithStatus(Cancelled));
  }

  // ------------------------------------------------------------------- parser

  /** `validDate` */
  predicate ValidDate(s: string) {
    ReadDate(s).Some?
  }

  function SharesTotal(statuses: seq<StatusShare>): nat {
    if statuses == [] then 0 else SharesTotal(statuses[..|statuses| - 1]) + statuses[|statuses| - 1].count
  }

  predicate FiguresAccepted(s: Summary) {
    ValidDate(s.from) && ValidDate(s.to) && !Less(s.to, s.from)
    && s.cancelledBookings <= s.totalBookings
    && s.cancellationRate <= 1000 && s.cancellationRate == Percentage(s.cancelledBookings, s.totalBookings)
    && s.capacityHours >= 0
    && (if s.capacityHours == 0 then s.scheduledHours == 0 && s.utilizationRate.None?
        else s.utilizationRate == Some(Percentage(s.scheduledHours, s.capacityHours)))
    && s.resourcesRepresented <= s.totalBookings
  }

  predicate StatusesAccepted(s: Summary) {
    |s.statuses| == 7
    && (forall i :: 0 <= i < 7 ==> s.statuses[i].status == StatusOrder()[i])
    && (forall i :: 0 <= i < |s.statuses| ==>
          s.statuses[i].percentage <= 1000
            && s.statuses[i].percentage == Percentage(s.statuses[i].count, s.totalBookings))
    && SharesTotal(s.statuses) == s.totalBookings
    && s.statuses[6].count == s.cancelledBookings
  }

  ghost predicate PopularAccepted(s: Summary) {
    var p := s.popularResources;
    (forall i :: 0 <= i < |p| ==> 0 < p[i].bookingCount <= s.totalBookings && p[i].bookedHours > 0)
    && |p| == (if s.resourcesRepresented <= 5 then s.resourcesRepresented else 5)
    && (forall i, j :: 0 <= i < j < |p| ==> p[i].id != p[j].id && p[i].code != p[j].code)
    && BookingTotal(p) <= s.totalBookings
    && (forall i, j :: 0 <= i < j < |p| && j == i + 1 ==> p[j].bookingCount <= p[i].bookingCount)
  }

  ghost predicate PeaksAccepted(s: Summary) {
    (forall i :: 0 <= i < |s.peakHours| ==>
       s.peakHours[i].hour <= 22 && s.peakHours[i].text == Padded(s.peakHours[i].hour, 2) + ":00"
       && 0 < s.peakHours[i].bookingCount <= s.totalBookings)
    && (forall i, j :: 0 <= i < j < |s.peakHours| && j == i + 1 ==> s.peakHours[i].hour < s.peakHours[j].hour)
  }

  /** `parseAnalyticsSummary` returns a summary rather than null. */
  ghost predicate SummaryAccepted(s: Summary) {
    FiguresAccepted(s) && StatusesAccepted(s) && PopularAccepted(s) && PeaksAccepted(s)
  }

  // ------------------------------------------------------- what it accepts

  lemma SumAtMostAll(rows: seq<Stored>, f: Booking -> nat)
    requires forall x :: x in rows ==> f(x.row) <= 1
    ensures Sum(rows, f) <= |rows|
  {
  }

  lemma StatusesPass(s: Summary, rows: seq<Stored>, order: seq<Status>)
    requires order == StatusOrder() && s.totalBookings == StatusTotal(rows)
             && s.cancelledBookings == Sum(rows, WithStatus(Cancelled))
    requires |s.statuses| == 7 && forall i :: 0 <= i < 7 ==> s.statuses[i] == Share(rows, order[i], s.totalBookings)
    ensures StatusesAccepted(s)
  {
    StatusTotalIsAll(rows);
    forall i | 0 <= i < 7
      ensures Percentage(Sum(rows, WithStatus(order[i])), s.totalBookings) <= 1000
    {
      SumAtMostAll(rows, WithStatus(order[i]));
      PercentageBound(Sum(rows, WithStatus(order[i])), s.totalBookings);
    }
    hide Sum, Percentage, StatusTotal;
    SharesAdd(s.statuses, rows, order, s.totalBookings, 7);
    CountAll(rows);
  }

  lemma {:induction false} SharesAdd(statuses: seq<StatusShare>, rows: seq<Stored>, order: seq<Status>, total: nat,
                                     n: nat)
    requires order == StatusOrder() && n <= 7 && |statuses| == n
    requires forall i :: 0 <= i < n ==> statuses[i] == Share(rows, order[i], total)
    ensures SharesTotal(statuses) == CountUpTo(rows, n)
  {
    hide Sum, Percentage;
    if n > 0 {
      SharesAdd(statuses[..n - 1], rows, order, total, n - 1);
    }
  }

  lemma {:induction false} TakeTotals(popular: seq<PopularRow>, n: nat)
    requires n <= |popular|
    ensures BookingTotal(popular[..n]) <= BookingTotal(popular)
    decreases |popular|
  {
    if n < |popular| {
      TakeTotals(popular[..|popular| - 1], n);
      assert popular[..|popular| - 1][..n] == popular[..n];
    } else {
      assert popular[..n] == popular;
    }
  }

  lemma {:induction false} RowsAtMostBookings(popular: seq<PopularRow>)
    requires forall p :: p in popular ==> p.bookingCount > 0
    ensures |popular| <= BookingTotal(popular)
  {
    if popular != [] {
      RowsAtMostBookings(popular[..|popular| - 1]);
    }
  }

  lemma CodesApart(db: Database, rows: seq<Stored>, popular: seq<PopularRow>)
    requires PopularRows(db.resources, rows, popular) && CodesUnique(db)
    ensures forall i, j :: 0 <= i < j < |popular| ==> popular[i].code != popular[j].code
  {
  }

  /** Every row counts at least one booking and one hour, and no more bookings than there are. */
  lemma RowsInRange(resources: map<Id, Resource>, rows: seq<Stored>, popular: seq<PopularRow>)
    requires PopularRows(resources, rows, popular) && HoursSound(rows)
    ensures forall p :: p in popular ==> 0 < p.bookingCount <= |rows| && p.bookedHours > 0
    ensures |popular| <= BookingTotal(popular) <= |rows|
  {
    hide Sum, DemandOn, DemandHoursOn, Demand;
    forall p | p in popular
      ensures 0 < p.bookingCount <= |rows| && p.bookedHours > 0
    {
      CountsOfResource(rows, p.id);
    }
    PopularConserveHours(resources, rows, popular);
    DemandAtMostAll(rows);
    RowsAtMostBookings(popular);
  }

  lemma PopularPass(s: Summary, db: Database, rows: seq<Stored>, popular: seq<PopularRow>)
    requires PopularRows(db.resources, rows, popular) && CodesUnique(db) && HoursSound(rows)
    requires s.totalBookings == |rows| && s.resourcesRepresented == |popular|
             && s.popularResources == FirstFive(popular)
    ensures PopularAccepted(s) && s.resourcesRepresented <= s.totalBookings
  {
    hide Sum, DemandOn, DemandHoursOn, InDemand;
    CodesApart(db, rows, popular);
    RowsInRange(db.resources, rows, popular);
    FirstFivePass(s, popular);
  }

  /** What holds of the rows holds of the first five. */
  lemma FirstFivePass(s: Summary, popular: seq<PopularRow>)
    requires forall i, j :: 0 <= i < j < |popular| ==>
               popular[i].id != popular[j].id && popular[i].bookingCount >= popular[j].bookingCount
    requires forall i, j :: 0 <= i < j < |popular| ==> popular[i].code != popular[j].code
    requires forall p :: p in popular ==> 0 < p.bookingCount <= s.totalBookings && p.bookedHours > 0
    requires BookingTotal(popular) <= s.totalBookings && s.resourcesRepresented == |popular|
             && s.popularResources == FirstFive(popular)
    ensures PopularAccepted(s)
  {
    hide BookingTotal;
    var five := FirstFive(popular);
    TakeTotals(popular, |five|);
    assert five == popular[..|five|];
    forall i | 0 <= i < |five|
      ensures 0 < five[i].bookingCount <= s.totalBookings && five[i].bookedHours > 0
    {
      assert popular[i] in popular;
    }
    forall i, j | 0 <= i < j < |five|
      ensures five[i].id != five[j].id && five[i].code != five[j].code && five[j].bookingCount <= five[i].bookingCount
    {
      assert five[i] == popular[i] && five[j] == popular[j];
    }
  }

  lemma DemandAtMostAll(rows: seq<Stored>)
    ensures Sum(rows, Demand) <= |rows|
  {
  }

  lemma CountsOfResource(rows: seq<Stored>, id: Id)
    requires HoursSound(rows)
    ensures Sum(rows, DemandOn(id)) <= |rows| && Sum(rows, DemandOn(id)) <= Sum(rows, DemandHoursOn(id))
  {
  }

  lemma PeaksPass(s: Summary, rows: seq<Stored>)
    requires HoursSound(rows) && s.totalBookings == |rows|
    requires |s.peakHours| == |Peaks(rows)|
    requires forall i :: 0 <= i < |Peaks(rows)| ==> s.peakHours[i] == Labelled(Peaks(rows)[i])
    ensures PeaksAccepted(s)
  {
    PeaksCount(rows, 24);
    PeakHoursBounded(rows);
    forall i | 0 <= i < |Peaks(rows)|
      ensures Peaks(rows)[i].hour <= 22 && 0 < Peaks(rows)[i].bookingCount <= |rows|
    {
      assert Peaks(rows)[i] in Peaks(rows);
      SumAtMostAll(rows, TakesHour(Peaks(rows)[i].hour));
    }
  }

  /**
   * The frontend accepts the summary of any range exactly when the catalog has
   * capacity in it or nothing in it is scheduled on the active catalog,
   * whatever texts the closure dates come in.
   */
  lemma SummaryAcceptedExactly(db: Database, from: int, to: int, rows: seq<Stored>, popular: seq<PopularRow>,
                               catalog: seq<ResourceHours>, closures: ClosureRows)
    requires Answers(db, from, to, rows, popular, catalog, closures)
    requires from <= to && FourDigits(from) && FourDigits(to)
    requires HoursSound(rows) && CodesUnique(db)
    requires forall id :: id in db.resources ==> ResourceChecks(db.resources[id])
    ensures var s := SummaryOf(from, to, rows, popular, catalog, NamedDays(closures, from, to));
            SummaryAccepted(s) <==> s.capacityHours > 0 || s.scheduledHours == 0
  {
    hide DayText, ReadDate, TotalCapacity, Sum, Peaks, Percentage, StatusTotal, Less, Selects, ScheduledOn,
      PopularRows, StatusesAccepted, PopularAccepted, PeaksAccepted, YearOf, HoursSound, WithStatus;
    var s := SummaryOf(from, to, rows, popular, catalog, NamedDays(closures, from, to));
    StatusTotalIsAll(rows);
    StatusesPass(s, rows, StatusOrder());
    PopularPass(s, db, rows, popular);
    PeaksPass(s, rows);
    RangePasses(from, to);
    CapacityNotNegative(catalog, from, to, NamedDays(closures, from, to));
    CancelledBound(rows);
  }

  lemma RangePasses(from: int, to: int)
    requires from <= to && FourDigits(from) && FourDigits(to)
    ensures ValidDate(DayText(from)) && ValidDate(DayText(to)) && !Less(DayText(to), DayText(from))
  {
    hide DayText, Less, ReadDate;
    DayTextRoundTrip(from);
    DayTextRoundTrip(to);
    DayTextOrder(to, from);
  }

  lemma CancelledBound(rows: seq<Stored>)
    ensures Sum(rows, WithStatus(Cancelled)) <= |rows|
    ensures Percentage(Sum(rows, WithStatus(Cancelled)), |rows|) <= 1000
  {
    SumAtMostAll(rows, WithStatus(Cancelled));
    PercentageBound(Sum(rows, WithStatus(Cancelled)), |rows|);
  }

  /** The tables and the answers of `RefusedSummary`. */
  lemma OneVisitAnswers(day: int, visit: Booking, r: Resource)
    requires visit.date == day && visit.startHour < visit.endHour <= 23 && visit.status == Completed
    requires visit.resourceId == 7 && r.status == Active
    ensures Answers(Database(map[7 := r], map[], map[1 := visit]), day, day,
                    [Stored(1, visit)], [PopularRow(7, r.code, 1, Hours(visit))], [HoursOf(7, r)], [])
  {
    var rows, catalog, popular := [Stored(1, visit)], [HoursOf(7, r)], [PopularRow(7, r.code, 1, Hours(visit))];
    assert rows[..0] == [] && rows[0] in rows && catalog[0] in catalog && popular[0] in popular;
    OneVisitSums(visit);
    hide Sum, Hours, DemandOn, DemandHoursOn;
  }

  lemma OneVisitSums(visit: Booking)
    requires visit.resourceId == 7 && visit.status == Completed
    ensures Sum([Stored(1, visit)], DemandOn(7)) == 1 && Sum([Stored(1, visit)], DemandHoursOn(7)) == Hours(visit)
    ensures forall active: set<Id> :: 7 in active ==> Sum([Stored(1, visit)], ScheduledOn(active)) == Hours(visit)
  {
  }

  /**
   * A completed booking on a weekday that has since left the schedule gives hours without capacity: a
   * refused summary.
   */
  lemma RefusedSummary(day: int, visit: Booking, r: Resource)
    requires FourDigits(day) && visit.date == day && visit.startHour < visit.endHour <= 23 && visit.status == Completed
    requires visit.resourceId == 7 && r.status == Active && ResourceChecks(r) && WeekdayOf(day) !in r.operatingDays
    ensures var s := SummaryOf(day, day, [Stored(1, visit)], [PopularRow(7, r.code, 1, Hours(visit))], [HoursOf(7, r)],
                               NamedDays([], day, day));
            !SummaryAccepted(s)
    ensures Answers(Database(map[7 := r], map[], map[1 := visit]), day, day,
                    [Stored(1, visit)], [PopularRow(7, r.code, 1, Hours(visit))], [HoursOf(7, r)], [])
  {
    hide Answers, StatusesAccepted, PopularAccepted, PeaksAccepted, ValidDate, Percentage, StatusTotal, Peaks,
      WithStatus, Sum, Less, ScheduledOn;
    OneVisitAnswers(day, visit, r);
    OneVisitSums(visit);
    var catalog := [HoursOf(7, r)];
    assert NamedDays([], day, day) == {};
    assert UsableDays(catalog[0], day, day, {}) == {};
    assert catalog[..0] == [];
    assert TotalCapacity(catalog, day, day, {}) == 0;
    assert catalog[0] in catalog;
    assert 7 in ActiveIds(catalog);
  }
}
