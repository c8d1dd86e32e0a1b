/** The aggregate queries over the bookings of a date range, and what their results add up to. */
module Tallies {
  import opened Bookings
  import opened Resources
  import opened Timeline

  /** `SUM(f)` over rows. */
  function Sum(rows: seq<Stored>, f: Booking -> nat): nat {
    if rows == [] then 0 else Sum(rows[..|rows| - 1], f) + f(rows[|rows| - 1].row)
  }

  lemma {:induction false} SumAdds(rows: seq<Stored>, f: Booking -> nat, g: Booking -> nat, h: Booking -> nat)
    requires forall x :: x in rows ==> h(x.row) == f(x.row) + g(x.row)
    ensures Sum(rows, h) == Sum(rows, f) + Sum(rows, g)
  {
    if rows != [] {
      SumAdds(rows[..|rows| - 1], f, g, h);
    }
  }

  lemma {:induction false} SumMonotone(rows: seq<Stored>, f: Booking -> nat, g: Booking -> nat)
    requires forall x :: x in rows ==> f(x.row) <= g(x.row)
    ensures Sum(rows, f) <= Sum(rows, g)
  {
    if rows != [] {
      SumMonotone(rows[..|rows| - 1], f, g);
    }
  }

  // ------------------------------------------------------------ what is summed

  /** DEMAND_STATUSES */
  predicate InDemand(status: Status) {
    status in {Pending, Confirmed, CheckedIn, Completed, NoShow}
  }

  /** UTILIZATION_STATUSES */
  predicate Utilized(status: Status) {
    status in {Pending, Confirmed, CheckedIn, Completed}
  }

  function Hours(b: Booking): nat {
    if b.startHour <= b.endHour then b.endHour - b.startHour else 0
  }

  function Demand(b: Booking): nat {
    if InDemand(b.status) then 1 else 0
  }

  function DemandHours(b: Booking): nat {
    if InDemand(b.status) then Hours(b) else 0
  }

  function WithStatus(status: Status): Booking -> nat {
    (b: Booking) => if b.status == status then 1 else 0
  }

  /** One for a demand booking that takes the hour: the lateral `generate_series`. */
  function TakesHour(hour: nat): Booking -> nat {
    (b: Booking) => if InDemand(b.status) && b.startHour <= hour <= b.endHour - 1 then 1 else 0
  }

  function DemandOn(resourceId: Id): Booking -> nat {
    (b: Booking) => if InDemand(b.status) && b.resourceId == resourceId then 1 else 0
  }

  function DemandHoursOn(resourceId: Id): Booking -> nat {
    (b: Booking) => if InDemand(b.status) && b.resourceId == resourceId then Hours(b) else 0
  }

  // ------------------------------------------------------------------ statuses

  function StatusOrder(): seq<Status> {
    [Pending, Confirmed, CheckedIn, Completed, NoShow, Rejected, Cancelled]
  }

  function StatusTotal(rows: seq<Stored>): nat {
    Sum(rows, WithStatus(Pending)) + Sum(rows, WithStatus(Confirmed)) + Sum(rows, WithStatus(CheckedIn))
    + Sum(rows, WithStatus(Completed)) + Sum(rows, WithStatus(NoShow)) + Sum(rows, WithStatus(Rejected))
    + Sum(rows, WithStatus(Cancelled))
  }

  /** The status counts together count every booking once. */
  lemma {:induction false} StatusTotalIsAll(rows: seq<Stored>)
    ensures StatusTotal(rows) == |rows|
  {
    if rows != [] {
      StatusTotalIsAll(rows[..|rows| - 1]);
    }
  }

  // ---------------------------------------------------------------- peak hours

  datatype PeakRow = PeakRow(hour: nat, bookingCount: nat)

  /** `GROUP BY hour ORDER BY hour`, for the hours below `limit`. */
  function PeakRows(rows: seq<Stored>, limit: nat): seq<PeakRow> {
    if limit == 0 then []
    else
      var count := Sum(rows, TakesHour(limit - 1));
      PeakRows(rows, limit - 1) + if count > 0 then [PeakRow(limit - 1, count)] else []
  }

  function PeakTotal(peaks: seq<PeakRow>): nat {
    if peaks == [] then 0 else PeakTotal(peaks[..|peaks| - 1]) + peaks[|peaks| - 1].bookingCount
  }

  /** The demand hours of a booking below `limit`. */
  function HoursBelow(limit: nat): Booking -> nat {
    (b: Booking) =>
      if InDemand(b.status) && b.startHour < b.endHour && b.startHour < limit
      then (if b.endHour < limit then b.endHour else limit) - b.startHour
      else 0
  }

  lemma {:induction false} PeaksBelow(rows: seq<Stored>, limit: nat)
    ensures PeakTotal(PeakRows(rows, limit)) == Sum(rows, HoursBelow(limit))
  {
    if limit == 0 {
      SumMonotone(rows, HoursBelow(0), (b: Booking) => 0);
      SumOfZeros(rows);
    } else {
      PeaksBelow(rows, limit - 1);
      SumAdds(rows, HoursBelow(limit - 1), TakesHour(limit - 1), HoursBelow(limit));
      var p := PeakRows(rows, limit);
      if Sum(rows, TakesHour(limit - 1)) > 0 {
        assert p[..|p| - 1] == PeakRows(rows, limit - 1);
      } else {
        assert p == PeakRows(rows, limit - 1);
      }
    }
  }

  /** Each row counts its hour, and the hours ascend. */
  lemma {:induction false} PeaksCount(rows: seq<Stored>, limit: nat)
    ensures forall p :: p in PeakRows(rows, limit) ==>
              p.hour < limit && p.bookingCount == Sum(rows, TakesHour(p.hour)) > 0
    ensures forall i, j :: 0 <= i < j < |PeakRows(rows, limit)| ==>
              PeakRows(rows, limit)[i].hour < PeakRows(rows, limit)[j].hour
  {
    hide TakesHour, Sum;
    if limit > 0 {
      PeaksCount(rows, limit - 1);
      var front := PeakRows(rows, limit - 1);
      forall i | 0 <= i < |front|
        ensures front[i].hour < limit - 1
      {
        assert front[i] in front;
      }
    }
  }

  lemma {:induction false} SumOfZeros(rows: seq<Stored>)
    ensures Sum(rows, (b: Booking) => 0) == 0
  {
    if rows != [] {
      SumOfZeros(rows[..|rows| - 1]);
    }
  }

  ghost predicate HoursSound(rows: seq<Stored>) {
    forall x :: x in rows ==> x.row.startHour < x.row.endHour <= 23
  }

  /** The peak-hour rows, all 24 hours considered. */
  function Peaks(rows: seq<Stored>): seq<PeakRow> {
    PeakRows(rows, 24)
  }

  /** The peak-hour counts add up to the hours of the demand bookings. */
  lemma PeaksConserveHours(rows: seq<Stored>)
    requires HoursSound(rows)
    ensures PeakTotal(Peaks(rows)) == Sum(rows, DemandHours)
  {
    PeaksBelow(rows, 24);
    SumMonotone(rows, HoursBelow(24), DemandHours);
    SumMonotone(rows, DemandHours, HoursBelow(24));
  }

  /** Hour 23 is never taken, so the hours reported are at most 22. */
  lemma PeakHoursBounded(rows: seq<Stored>)
    requires HoursSound(rows)
    ensures forall p :: p in Peaks(rows) ==> p.hour <= 22
  {
    PeaksCount(rows, 24);
    SumMonotone(rows, TakesHour(23), (b: Booking) => 0);
    SumOfZeros(rows);
  }

  // ---------------------------------------------------------- popular resources

  datatype PopularRow = PopularRow(id: Id, code: string, bookingCount: nat, bookedHours: nat)

  /** One row per resource with demand, busiest first; ties in any order. */
  ghost predicate PopularRows(resources: map<Id, Resource>, rows: seq<Stored>, popular: seq<PopularRow>) {
    (forall i, j :: 0 <= i < j < |popular| ==>
       popular[i].id != popular[j].id && popular[i].bookingCount >= popular[j].bookingCount)
    && (forall p :: p in popular ==>
          p.id in resources && p.code == resources[p.id].code
          && p.bookingCount == Sum(rows, DemandOn(p.id)) > 0 && p.bookedHours == Sum(rows, DemandHoursOn(p.id)))
    && (forall x :: x in rows && InDemand(x.row.status) ==> exists p :: p in popular && p.id == x.row.resourceId)
  }

  function BookedTotal(popular: seq<PopularRow>): nat {
    if popular == [] then 0 else BookedTotal(popular[..|popular| - 1]) + popular[|popular| - 1].bookedHours
  }

  function BookingTotal(popular: seq<PopularRow>): nat {
    if popular == [] then 0 else BookingTotal(popular[..|popular| - 1]) + popular[|popular| - 1].bookingCount
  }

  function IdsOf(popular: seq<PopularRow>): set<Id> {
    set p | p in popular :: p.id
  }

  function DemandAmong(ids: set<Id>): Booking -> nat {
    (b: Booking) => if InDemand(b.status) && b.resourceId in ids then 1 else 0
  }

  function DemandHoursAmong(ids: set<Id>): Booking -> nat {
    (b: Booking) => if InDemand(b.status) && b.resourceId in ids then Hours(b) else 0
  }

  ghost predicate Counted(rows: seq<Stored>, popular: seq<PopularRow>) {
    (forall i, j :: 0 <= i < j < |popular| ==> popular[i].id != popular[j].id)
    && (forall p :: p in popular ==>
          p.bookingCount == Sum(rows, DemandOn(p.id)) && p.bookedHours == Sum(rows, DemandHoursOn(p.id)))
  }

  /** The rows of different resources count different bookings. */
  lemma {:induction false} PopularTotals(rows: seq<Stored>, popular: seq<PopularRow>)
    requires Counted(rows, popular)
    ensures BookingTotal(popular) == Sum(rows, DemandAmong(IdsOf(popular)))
    ensures BookedTotal(popular) == Sum(rows, DemandHoursAmong(IdsOf(popular)))
  {
    if popular == [] {
      SumMonotone(rows, DemandAmong(IdsOf(popular)), (b: Booking) => 0);
      SumMonotone(rows, DemandHoursAmong(IdsOf(popular)), (b: Booking) => 0);
      SumOfZeros(rows);
    } else {
      var front, last := popular[..|popular| - 1], popular[|popular| - 1];
      PopularTotals(rows, front);
      FreshId(popular);
      SumAdds(rows, DemandAmong(IdsOf(front)), DemandOn(last.id), DemandAmong(IdsOf(popular)));
      SumAdds(rows, DemandHoursAmong(IdsOf(front)), DemandHoursOn(last.id), DemandHoursAmong(IdsOf(popular)));
    }
  }

  lemma FreshId(popular: seq<PopularRow>)
    requires popular != [] && forall i, j :: 0 <= i < j < |popular| ==> popular[i].id != popular[j].id
    ensures var front, last := popular[..|popular| - 1], popular[|popular| - 1];
            last.id !in IdsOf(front) && IdsOf(popular) == IdsOf(front) + {last.id}
  {
  }

  /** Over all rows before slicing, the popular resources' hours are the hours of the demand bookings. */
  lemma PopularConserveHours(resources: map<Id, Resource>, rows: seq<Stored>, popular: seq<PopularRow>)
    requires PopularRows(resources, rows, popular)
    ensures BookedTotal(popular) == Sum(rows, DemandHours)
    ensures BookingTotal(popular) == Sum(rows, Demand)
  {
    PopularTotals(rows, popular);
    forall x | x in rows && InDemand(x.row.status)
      ensures x.row.resourceId in IdsOf(popular)
    {
      var p :| p in popular && p.id == x.row.resourceId;
    }
    var ids := IdsOf(popular);
    SumMonotone(rows, DemandHoursAmong(ids), DemandHours);
    SumMonotone(rows, DemandHours, DemandHoursAmong(ids));
    SumMonotone(rows, DemandAmong(ids), Demand);
    SumMonotone(rows, Demand, DemandAmong(ids));
  }

  /** Peak hours and popular resources account for the same hours. */
  lemma PeaksMatchPopular(resources: map<Id, Resource>, rows: seq<Stored>, popular: seq<PopularRow>)
    requires HoursSound(rows) && PopularRows(resources, rows, popular)
    ensures PeakTotal(Peaks(rows)) == BookedTotal(popular)
  {
    PeaksConserveHours(rows);
    PopularConserveHours(resources, rows, popular);
  }

  // ------------------------------------------------------------ scheduled hours

  function ScheduledOn(active: set<Id>): Booking -> nat {
    (b: Booking) => if Utilized(b.status) && b.resourceId in active then Hours(b) else 0
  }
}
