/** Capacity hours of the active catalog over a range of campus dates. */
module Capacity {
  import opened Bookings
  import opened Calendar
  import opened CampusClock
  import opened Decimal
  import opened WireText

  datatype ResourceHours = ResourceHours(id: Id, operatingDays: set<int>, opensAt: nat, closesAt: nat, createdAt: int)

  function DailyHours(r: ResourceHours): int {
    r.closesAt - r.opensAt
  }

  /** The resource can be used on the day: it exists, operates and is not closed. */
  predicate Usable(r: ResourceHours, day: int, closed: set<(Id, int)>) {
    CampusDay(r.createdAt) <= day && WeekdayOf(day) in r.operatingDays && (r.id, day) !in closed
  }

  function UsableDays(r: ResourceHours, from: int, to: int, closed: set<(Id, int)>): set<int> {
    set day | from <= day <= to && Usable(r, day, closed)
  }

  /** Daily hours times usable days, over all resources. */
  function TotalCapacity(resources: seq<ResourceHours>, from: int, to: int, closed: set<(Id, int)>): int {
    if resources == [] then 0
    else
      var r := resources[|resources| - 1];
      TotalCapacity(resources[..|resources| - 1], from, to, closed) + DailyHours(r) * |UsableDays(r, from, to, closed)|
  }

  function ClosedDays(closures: seq<(Id, int)>): set<(Id, int)> {
    set c | c in closures
  }

  /** The closure rows as the raw query returns them: the resource, and the date as it prints inside a text. */
  type ClosureRows = seq<(Id, string)>

  /** The set of `${resourceId}:${date}` keys. */
  function ClosedKeys(closures: ClosureRows): set<(Id, string)> {
    set c | c in closures
  }

  /** The days of the range whose ISO text some row carries. */
  function NamedDays(closures: ClosureRows, from: int, to: int): set<(Id, int)> {
    set c, day | c in closures && from <= day <= to && c.1 == DayText(day) :: (c.0, day)
  }

  /** The rows of a driver that returns a date as its ISO text. */
  function IsoRows(closures: seq<(Id, int)>): (rows: ClosureRows)
    ensures |rows| == |closures| && forall i :: 0 <= i < |rows| ==> rows[i] == (closures[i].0, DayText(closures[i].1))
  {
    seq(|closures|, i requires 0 <= i < |closures| => (closures[i].0, DayText(closures[i].1)))
  }

  /** `capacityHours`; the inner loop is the generator `dates`. */
  method CapacityHours(from: int, to: int, resources: seq<ResourceHours>, closures: ClosureRows) returns (total: int)
    requires FourDigits(from) && FourDigits(to)
    requires forall r :: r in resources ==> FourDigits(CampusDay(r.createdAt))
    ensures total == TotalCapacity(resources, from, to, NamedDays(closures, from, to))
  {
    hide DayText, WeekdayOf, YearOf, CampusDay, Usable, NamedDays;
    var closed := ClosedKeys(closures);
    ghost var days := NamedDays(closures, from, to);
    total := 0;
    for i := 0 to |resources|
      invariant total == TotalCapacity(resources[..i], from, to, days)
    {
      var resource := resources[i];
      var dailyHours := DailyHours(resource);
      var createdDate := CampusDateOf(resource.createdAt);
      ghost var before := total;
      var current := from;
      UsableNone(resource, from, days);
      while current <= to
        invariant from <= current && (current <= to + 1 || current == from)
        invariant total == before + dailyHours * |UsableDays(resource, from, current - 1, days)|
      {
        var date := DayText(current);
        UsableStep(resource, from, current, days);
        DayTest(resource, current, from, to, closures);
        Distribute(dailyHours, |UsableDays(resource, from, current - 1, days)|);
        if !Less(date, createdDate) && WeekdayOf(current) in resource.operatingDays && (resource.id, date) !in closed {
          total := total + dailyHours;
        }
        current := current + 1;
      }
      assert UsableDays(resource, from, current - 1, days) == UsableDays(resource, from, to, days);
      assert resources[..i + 1][..i] == resources[..i];
    }
    assert resources[..|resources|] == resources;
  }

  lemma Distribute(a: int, n: int)
    ensures a * (n + 1) == a * n + a
  {
  }

  lemma UsableNone(r: ResourceHours, from: int, closed: set<(Id, int)>)
    ensures UsableDays(r, from, from - 1, closed) == {}
  {
  }

  lemma UsableStep(r: ResourceHours, from: int, day: int, closed: set<(Id, int)>)
    requires from <= day
    ensures |UsableDays(r, from, day, closed)|
         == |UsableDays(r, from, day - 1, closed)| + if Usable(r, day, closed) then 1 else 0
  {
    assert UsableDays(r, from, day, closed)
        == UsableDays(r, from, day - 1, closed) + if Usable(r, day, closed) then {day} else {};
  }

  lemma YearsBetween(a: int, b: int)
    requires a <= b
    ensures YearOf(a) <= YearOf(b)
  {
    if YearOf(b) < YearOf(a) {
      YearsIncrease(YearOf(b) + 1, YearOf(a));
    }
  }

  /** The comparisons of texts in the loop test whether the day is usable. */
  lemma DayTest(r: ResourceHours, day: int, from: int, to: int, closures: ClosureRows)
    requires from <= day <= to && FourDigits(from) && FourDigits(to) && FourDigits(CampusDay(r.createdAt))
    ensures Usable(r, day, NamedDays(closures, from, to))
       <==> !Less(DayText(day), CampusDateOf(r.createdAt)) && WeekdayOf(day) in r.operatingDays
            && (r.id, DayText(day)) !in ClosedKeys(closures)
  {
    hide DayText, WeekdayOf, YearOf, CampusDay, Less;
    YearsBetween(from, day);
    YearsBetween(day, to);
    DayTextOrder(day, CampusDay(r.createdAt));
    if (r.id, DayText(day)) in ClosedKeys(closures) {
      assert (r.id, DayText(day)) in closures;
      assert (r.id, DayText(day)).1 == DayText(day);
    }
  }

  /** Rows with ISO texts close exactly their days. */
  lemma IsoRowsClose(closures: seq<(Id, int)>, from: int, to: int)
    requires FourDigits(from) && FourDigits(to) && forall c :: c in closures ==> from <= c.1 <= to
    ensures NamedDays(IsoRows(closures), from, to) == ClosedDays(closures)
  {
    hide DayText, YearOf;
    forall c | c in closures
      ensures (c.0, c.1) in NamedDays(IsoRows(closures), from, to)
    {
      var i :| 0 <= i < |closures| && closures[i] == c;
      assert IsoRows(closures)[i] in IsoRows(closures);
    }
    forall k | k in NamedDays(IsoRows(closures), from, to)
      ensures k in ClosedDays(closures)
    {
      var c :| c in IsoRows(closures) && c.0 == k.0 && c.1 == DayText(k.1);
      var i :| 0 <= i < |closures| && IsoRows(closures)[i] == c;
      SameTextSameDay(closures[i].1, k.1, from, to);
      assert closures[i] == k;
    }
  }

  lemma SameTextSameDay(a: int, b: int, from: int, to: int)
    requires FourDigits(from) && FourDigits(to) && from <= a <= to && from <= b <= to && DayText(a) == DayText(b)
    ensures a == b
  {
    hide DayText, YearOf, Less;
    YearsBetween(from, a);
    YearsBetween(a, to);
    YearsBetween(from, b);
    YearsBetween(b, to);
    DayTextOrder(a, b);
  }

  /** Rows whose dates print in any other way close nothing: a driver that returns Date objects loses every closure. */
  lemma OtherTextsCloseNothing(closures: ClosureRows, from: int, to: int)
    requires forall c, day :: c in closures && from <= day <= to ==> c.1 != DayText(day)
    ensures NamedDays(closures, from, to) == {}
  {
    hide DayText;
  }

  // ---------------------------------------------------------------- properties

  lemma UsableSplit(r: ResourceHours, from: int, mid: int, to: int, closed: set<(Id, int)>)
    requires from <= mid + 1 <= to + 1
    ensures |UsableDays(r, from, to, closed)|
            == |UsableDays(r, from, mid, closed)| + |UsableDays(r, mid + 1, to, closed)|
  {
    hide Usable;
    var a, b := UsableDays(r, from, mid, closed), UsableDays(r, mid + 1, to, closed);
    assert UsableDays(r, from, to, closed) == a + b && a !! b;
  }

  lemma DistributeSum(a: int, m: int, n: int)
    ensures a * (m + n) == a * m + a * n
  {
  }

  /** Splitting the range splits the capacity. */
  lemma {:induction false} CapacitySplits(resources: seq<ResourceHours>, from: int, mid: int, to: int,
                                          closed: set<(Id, int)>)
    requires from <= mid + 1 <= to + 1
    ensures TotalCapacity(resources, from, to, closed)
         == TotalCapacity(resources, from, mid, closed) + TotalCapacity(resources, mid + 1, to, closed)
  {
    if resources != [] {
      var r := resources[|resources| - 1];
      CapacitySplits(resources[..|resources| - 1], from, mid, to, closed);
      UsableSplit(r, from, mid, to, closed);
      DistributeSum(DailyHours(r), |UsableDays(r, from, mid, closed)|, |UsableDays(r, mid + 1, to, closed)|);
    }
  }

  /** The hours that closing one more day takes from the capacity. */
  function HoursLost(resources: seq<ResourceHours>, from: int, to: int, closed: set<(Id, int)>, key: (Id, int)): int {
    if resources == [] then 0
    else
      var r := resources[|resources| - 1];
      HoursLost(resources[..|resources| - 1], from, to, closed, key)
      + if r.id == key.0 && from <= key.1 <= to && Usable(r, key.1, closed) then DailyHours(r) else 0
  }

  lemma UsableAfterClosure(r: ResourceHours, from: int, to: int, closed: set<(Id, int)>, key: (Id, int))
    ensures |UsableDays(r, from, to, closed + {key})|
         == |UsableDays(r, from, to, closed)|
            - if r.id == key.0 && from <= key.1 <= to && Usable(r, key.1, closed) then 1 else 0
  {
    var before, after := UsableDays(r, from, to, closed), UsableDays(r, from, to, closed + {key});
    if r.id == key.0 && from <= key.1 <= to && Usable(r, key.1, closed) {
      assert after == before - {key.1};
    } else {
      assert after == before;
    }
  }

  /** A closure costs exactly one day's hours of the resource, if the day was usable. */
  lemma {:induction false} ClosureCost(resources: seq<ResourceHours>, from: int, to: int, closed: set<(Id, int)>,
                                       key: (Id, int))
    ensures TotalCapacity(resources, from, to, closed + {key})
         == TotalCapacity(resources, from, to, closed) - HoursLost(resources, from, to, closed, key)
  {
    if resources != [] {
      hide Usable;
      var r := resources[|resources| - 1];
      ClosureCost(resources[..|resources| - 1], from, to, closed, key);
      UsableAfterClosure(r, from, to, closed, key);
      Distribute(DailyHours(r), |UsableDays(r, from, to, closed)| - 1);
    }
  }

  lemma {:induction false} HoursLostNotNegative(resources: seq<ResourceHours>, from: int, to: int,
                                                closed: set<(Id, int)>, key: (Id, int))
    requires forall r :: r in resources ==> r.opensAt < r.closesAt
    ensures HoursLost(resources, from, to, closed, key) >= 0
  {
    if resources != [] {
      HoursLostNotNegative(resources[..|resources| - 1], from, to, closed, key);
    }
  }

  /** More closures never add capacity. */
  lemma {:induction false} ClosuresOnlyCost(resources: seq<ResourceHours>, from: int, to: int, closed: set<(Id, int)>,
                                            more: set<(Id, int)>)
    requires forall r :: r in resources ==> r.opensAt < r.closesAt
    ensures TotalCapacity(resources, from, to, closed + more) <= TotalCapacity(resources, from, to, closed)
  {
    if more == {} {
      assert closed + more == closed;
    } else {
      var key :| key in more;
      ClosuresOnlyCost(resources, from, to, closed, more - {key});
      ClosureCost(resources, from, to, closed + (more - {key}), key);
      HoursLostNotNegative(resources, from, to, closed + (more - {key}), key);
      assert closed + (more - {key}) + {key} == closed + more;
    }
  }

  lemma {:induction false} CapacityNotNegative(resources: seq<ResourceHours>, from: int, to: int,
                                               closed: set<(Id, int)>)
    requires forall r :: r in resources ==> r.opensAt < r.closesAt
    ensures TotalCapacity(resources, from, to, closed) >= 0
  {
    if resources != [] {
      CapacityNotNegative(resources[..|resources| - 1], from, to, closed);
    }
  }
}
