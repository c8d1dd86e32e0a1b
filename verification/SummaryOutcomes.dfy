/**
 * What the analytics summary counts, by the promises of its definition text:
 * every request in the totals, demand without the refused and the cancelled,
 * utilisation without the missed, and capacity day by day.
 */
module SummaryOutcomes {
  import opened Analytics
  import opened Arithmetic
  import opened Bookings
  import opened Calendar
  import opened Capacity
  import opened CampusClock
  import opened Decimal
  import opened Resources
  import opened StaffQueues
  import opened Tallies
  import opened Timeline

  // ------------------------------------------------------------- what is counted

  function StatusIs(rows: seq<Stored>, status: Status): set<Id> {
    set x | x in rows && x.row.status == status :: x.id
  }

  /** Summing ones counts the bookings. */
  lemma {:induction false} CountsBookings(rows: seq<Stored>, status: Status)
    requires DistinctIds(rows)
    ensures Sum(rows, WithStatus(status)) == |StatusIs(rows, status)|
  {
    if rows == [] {
      assert StatusIs(rows, status) == {};
    } else {
      var front, last := rows[..|rows| - 1], rows[|rows| - 1];
      assert DistinctIds(front);
      hide StatusIs, DistinctIds;
      assert rows == front + [last];
      CountsBookings(front, status);
      OneMore(front, last, status);
    }
  }

  lemma OneMore(front: seq<Stored>, last: Stored, status: Status)
    requires DistinctIds(front + [last])
    ensures var ids := StatusIs(front, status);
            last.id !in ids && StatusIs(front + [last], status) == if last.row.status == status then ids + {last.id}
              else ids
  {
    var rows := front + [last];
    assert forall i :: 0 <= i < |front| ==> rows[i] == front[i];
    assert rows[|front|] == last;
    forall x | x in front
      ensures x.id != last.id && x in rows
    {
      var i :| 0 <= i < |front| && front[i] == x;
      assert rows[i].id != rows[|front|].id;
    }
    assert last in rows;
  }

  lemma {:induction false} IdsAreRows(rows: seq<Stored>)
    requires DistinctIds(rows)
    ensures |set x | x in rows :: x.id| == |rows|
  {
    if rows == [] {
      assert (set x | x in rows :: x.id) == {};
    } else {
      var front, last := rows[..|rows| - 1], rows[|rows| - 1];
      IdsAreRows(front);
      assert rows == front + [last];
      assert forall x :: x in front ==> x.id != last.id;
      assert (set x | x in rows :: x.id) == (set x | x in front :: x.id) + {last.id};
    }
  }

  /** The bookings of the range with a status, straight from the table. */
  function InRange(db: Database, from: int, to: int, status: Status): set<Id> {
    set id | id in db.bookings && from <= db.bookings[id].date <= to && db.bookings[id].status == status
  }

  lemma SelectedStatus(db: Database, from: int, to: int, rows: seq<Stored>, status: Status)
    requires Selects(db.bookings, IdsBetween(db.bookings, from, to), rows)
    ensures StatusIs(rows, status) == InRange(db, from, to, status)
    ensures (set x | x in rows :: x.id) == set id | id in db.bookings && from <= db.bookings[id].date <= to
  {
    forall id | id in db.bookings && from <= db.bookings[id].date <= to
      ensures exists x :: x in rows && x.id == id && x.row == db.bookings[id]
    {
      assert id in IdsBetween(db.bookings, from, to);
      var x :| x in rows && x.id == id;
    }
  }

  /** Total, cancelled and each status count are numbers of bookings of the table in the range. */
  lemma SummaryCounts(db: Database, from: int, to: int, rows: seq<Stored>, popular: seq<PopularRow>,
                      catalog: seq<ResourceHours>, closures: ClosureRows, status: Status)
    requires Answers(db, from, to, rows, popular, catalog, closures)
    ensures var s := SummaryOf(from, to, rows, popular, catalog, NamedDays(closures, from, to));
            s.totalBookings == |set id | id in db.bookings && from <= db.bookings[id].date <= to|
            && s.cancelledBookings == |InRange(db, from, to, Cancelled)|
            && |s.statuses| == 7
            && (exists i :: 0 <= i < 7 && s.statuses[i].status == status
                  && s.statuses[i].count == |InRange(db, from, to, status)|)
            && s.resourcesRepresented == |popular|
            && s.popularResources == popular[..if |popular| < 5 then |popular| else 5]
  {
    hide Answers, Sum, WithStatus, InRange, StatusTotal, TotalCapacity, Peaks, Percentage, DayText, NamedDays, Share;
    RowsOfRange(db, from, to, rows, popular, catalog, closures, status);
    RowsOfRange(db, from, to, rows, popular, catalog, closures, Cancelled);
    StatusTotalIsAll(rows);
    StatusPlace(status);
    ShareCounts(rows, status);
    var s := SummaryOf(from, to, rows, popular, catalog, NamedDays(closures, from, to));
    var i :| 0 <= i < 7 && StatusOrder()[i] == status;
    assert s.statuses[i] == Share(rows, status, StatusTotal(rows));
  }

  lemma ShareCounts(rows: seq<Stored>, status: Status)
    ensures var share := Share(rows, status, StatusTotal(rows));
            share.status == status && share.count == Sum(rows, WithStatus(status))
  {
    hide Percentage, StatusTotal, Sum, WithStatus;
  }

  lemma RowsOfRange(db: Database, from: int, to: int, rows: seq<Stored>, popular: seq<PopularRow>,
                    catalog: seq<ResourceHours>, closures: ClosureRows, status: Status)
    requires Answers(db, from, to, rows, popular, catalog, closures)
    ensures |rows| == |set id | id in db.bookings && from <= db.bookings[id].date <= to|
    ensures Sum(rows, WithStatus(status)) == |InRange(db, from, to, status)|
  {
    SelectedStatus(db, from, to, rows, status);
    CountsBookings(rows, status);
    IdsAreRows(rows);
    hide Sum, WithStatus, StatusIs, InRange, PopularRows;
  }

  lemma StatusPlace(status: Status)
    ensures |StatusOrder()| == 7 && exists i :: 0 <= i < 7 && StatusOrder()[i] == status
  {
    var order := StatusOrder();
    assert order[0] == Pending && order[1] == Confirmed && order[2] == CheckedIn && order[3] == Completed;
    assert order[4] == NoShow && order[5] == Rejected && order[6] == Cancelled;
  }

  /** A rate is the nearest tenth of a percent, halves upwards. */
  lemma PercentageNearest(numerator: nat, denominator: nat)
    requires denominator > 0
    ensures var p := Percentage(numerator, denominator);
            2 * denominator * p <= 2000 * numerator + denominator < 2 * denominator * (p + 1)
  {
    var k, d := 2000 * numerator + denominator, 2 * denominator;
    DivisionBounds(k, d);
    assert d * (k / d + 1) == d * (k / d) + d;
  }

  // -------------------------------------------------------- demand and utilisation

  /** Demand is every request but the rejected and the cancelled. */
  lemma {:induction false} DemandIsTheRest(rows: seq<Stored>)
    ensures Sum(rows, Demand) + Sum(rows, WithStatus(Rejected)) + Sum(rows, WithStatus(Cancelled)) == |rows|
  {
    if rows != [] {
      DemandIsTheRest(rows[..|rows| - 1]);
    }
  }

  /** The hours of the no-shows on some resources. */
  function MissedHours(ids: set<Id>): Booking -> nat {
    (b: Booking) => if b.status == NoShow && b.resourceId in ids
      && b.startHour < b.endHour then b.endHour - b.startHour else 0
  }

  /** Scheduled hours are the demanded hours of the active catalog without those of the no-shows. */
  lemma {:induction false} ScheduledIsAttended(rows: seq<Stored>, ids: set<Id>)
    ensures Sum(rows, ScheduledOn(ids)) + Sum(rows, MissedHours(ids)) == Sum(rows, DemandHoursAmong(ids))
  {
    if rows != [] {
      ScheduledIsAttended(rows[..|rows| - 1], ids);
    }
  }

  lemma DemandExactly(status: Status)
    ensures InDemand(status) <==> status !in {Rejected, Cancelled}
  {
    assert status.Pending? || status.Confirmed? || status.CheckedIn? || status.Completed? || status.NoShow?
      || status.Rejected? || status.Cancelled?;
  }

  lemma SumOfOne(x: Stored, f: Booking -> nat)
    ensures Sum([x], f) == f(x.row)
  {
    assert [x][..0] == [];
  }

  /** A demand booking takes the hours from its start up to its end, and no others. */
  lemma HoursOfOne(x: Stored, h: nat)
    requires x.row.startHour < x.row.endHour <= 23
    ensures Sum([x], DemandHours)
         == if x.row.status in {Rejected, Cancelled} then 0 else x.row.endHour - x.row.startHour
    ensures (exists p :: p in Peaks([x]) && p.hour == h)
       <==> x.row.status !in {Rejected, Cancelled} && x.row.startHour <= h < x.row.endHour
  {
    DemandExactly(x.row.status);
    SumOfOne(x, DemandHours);
    SumOfOne(x, TakesHour(h));
    var taken := x.row.status !in {Rejected, Cancelled} && x.row.startHour <= h < x.row.endHour;
    assert TakesHour(h)(x.row) == if taken then 1 else 0;
    hide TakesHour, Sum, InDemand;
    PeaksListed([x], 24);
    PeaksCount([x], 24);
  }

  lemma {:induction false} PeaksListed(rows: seq<Stored>, limit: nat)
    ensures forall h: nat :: h < limit && Sum(rows, TakesHour(h)) > 0 ==>
              exists p :: p in PeakRows(rows, limit) && p.hour == h
  {
    hide TakesHour, Sum;
    if limit > 0 {
      PeaksListed(rows, limit - 1);
      var front := PeakRows(rows, limit - 1);
      forall h: nat | h < limit && Sum(rows, TakesHour(h)) > 0
        ensures exists p :: p in PeakRows(rows, limit) && p.hour == h
      {
        if h < limit - 1 {
          var p :| p in front && p.hour == h;
          assert p in PeakRows(rows, limit);
        } else {
          assert PeakRow(h, Sum(rows, TakesHour(h))) in PeakRows(rows, limit);
        }
      }
    }
  }

  // ---------------------------------------------------------------------- capacity

  /** One resource on one day gives its opening hours, if it existed by then, operates and is not closed. */
  lemma CapacityOfOneDay(id: Id, r: Resource, day: int, closed: set<(Id, int)>)
    ensures TotalCapacity([HoursOf(id, r)], day, day, closed)
         == if r.createdAt < HourMs(day + 1, 0) && WeekdayOf(day) in r.operatingDays && (id, day) !in closed
            then r.closesAt - r.opensAt else 0
  {
    hide WeekdayOf;
    var row := HoursOf(id, r);
    assert [row][..0] == [];
    assert TotalCapacity([], day, day, closed) == 0;
    assert UsableDays(row, day, day, closed) == if Usable(row, day, closed) then {day} else {};
    assert CampusDay(r.createdAt) <= day <==> r.createdAt < HourMs(day + 1, 0);
    hide Usable, UsableDays;
  }

  /** Resources add up. */
  lemma CapacityAdds(resources: seq<ResourceHours>, r: ResourceHours, from: int, to: int, closed: set<(Id, int)>)
    ensures TotalCapacity(resources + [r], from, to, closed)
         == TotalCapacity(resources, from, to, closed) + TotalCapacity([r], from, to, closed)
  {
    assert (resources + [r])[..|resources|] == resources && [r][..0] == [];
    hide UsableDays;
  }

  // ------------------------------------------------------------------------ figures

  /** The rate `p`, in tenths of a percent, is the nearest one to the fraction, halves upwards. */
  predicate IsRate(p: nat, numerator: nat, denominator: nat) {
    if denominator == 0 then p == 0
    else 2 * denominator * p <= 2000 * numerator + denominator < 2 * denominator * (p + 1)
  }

  lemma RateExactly(p: nat, numerator: nat, denominator: nat)
    ensures p == Percentage(numerator, denominator) <==> IsRate(p, numerator, denominator)
  {
    if denominator > 0 {
      PercentageNearest(numerator, denominator);
      var q := Percentage(numerator, denominator);
      hide Percentage;
      Monotone(p + 1, q, 2 * denominator);
      Monotone(q + 1, p, 2 * denominator);
    }
  }

  /** The dates and rates of the summary, and its peaks, hour by hour. */
  lemma SummaryFigures(from: int, to: int, rows: seq<Stored>, popular: seq<PopularRow>, catalog: seq<ResourceHours>,
                       closed: set<(Id, int)>)
    ensures var s := SummaryOf(from, to, rows, popular, catalog, closed);
            s.from == DayText(from) && s.to == DayText(to)
            && IsRate(s.cancellationRate, s.cancelledBookings, s.totalBookings)
            && s.scheduledHours == Sum(rows, ScheduledOn(set r | r in catalog :: r.id))
            && s.capacityHours == TotalCapacity(catalog, from, to, closed)
            && (s.utilizationRate.Some? <==> s.capacityHours > 0)
            && (s.capacityHours > 0 ==> IsRate(s.utilizationRate.value, s.scheduledHours, s.capacityHours))
            && (forall i :: 0 <= i < |s.statuses| ==>
                  IsRate(s.statuses[i].percentage, s.statuses[i].count, s.totalBookings))
            && |s.peakHours| == |Peaks(rows)|
            && forall i :: 0 <= i < |s.peakHours| ==>
              s.peakHours[i]
              == PeakHour(Peaks(rows)[i].hour, Padded(Peaks(rows)[i].hour, 2) + ":00", Peaks(rows)[i].bookingCount)
  {
    hide Sum, StatusTotal, TotalCapacity, Peaks, Percentage, DayText, IsRate, WithStatus, Padded, ScheduledOn,
      StatusOrder;
    var s := SummaryOf(from, to, rows, popular, catalog, closed);
    RateExactly(s.cancellationRate, s.cancelledBookings, s.totalBookings);
    if s.capacityHours > 0 {
      RateExactly(s.utilizationRate.value, s.scheduledHours, s.capacityHours);
    }
    forall i | 0 <= i < |s.statuses|
      ensures IsRate(s.statuses[i].percentage, s.statuses[i].count, s.totalBookings)
    {
      RateExactly(s.statuses[i].percentage, s.statuses[i].count, s.totalBookings);
    }
  }

  lemma {:induction false} SameShares(s: seq<StatusShare>, t: seq<StatusShare>)
    requires |s| == |t| && forall i :: 0 <= i < |s| ==> s[i].count == t[i].count
    ensures SharesTotal(s) == SharesTotal(t)
  {
    if s != [] {
      SameShares(s[..|s| - 1], t[..|t| - 1]);
    }
  }

  /** The parser leaves no freedom: status counts, hours and capacity determine every total and rate it lets through. */
  lemma AcceptedFigures(s: Summary, t: Summary)
    requires SummaryAccepted(s) && SummaryAccepted(t)
    requires forall i :: 0 <= i < 7 ==> s.statuses[i].count == t.statuses[i].count
    requires s.scheduledHours == t.scheduledHours && s.capacityHours == t.capacityHours
    ensures s.totalBookings == t.totalBookings && s.cancelledBookings == t.cancelledBookings
    ensures s.cancellationRate == t.cancellationRate && s.utilizationRate == t.utilizationRate
    ensures s.statuses == t.statuses
    ensures s.resourcesRepresented < 5 ==>
              (s.resourcesRepresented == t.resourcesRepresented <==> |s.popularResources| == |t.popularResources|)
  {
    hide Percentage, SharesTotal, ValidDate, PeaksAccepted;
    SameShares(s.statuses, t.statuses);
    forall i | 0 <= i < 7
      ensures s.statuses[i] == t.statuses[i]
    {
    }
  }
}
