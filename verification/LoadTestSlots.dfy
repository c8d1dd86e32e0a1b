/** The load test's booking slots: a mixed-radix count of resources, hours and days. */
module LoadTestSlots {
  import opened Arithmetic
  import opened Bookings
  import opened Calendar
  import opened Decimal
  import opened WireText

  datatype Slot = Slot(resourceId: Id, date: string, startTime: string, endTime: string)

  /** The resource's index, the day and the start hour of the k-th slot. */
  function PlaceOf(k: nat, perHour: nat, firstDay: int): (place: (nat, int, nat))
    requires perHour > 0
  {
    var perDay := perHour * 15;
    (k % perHour, firstDay + k / perDay, 7 + k % perDay / perHour)
  }

  /** `uniqueSlot` */
  function UniqueSlot(k: nat, resourceIds: seq<Id>, firstDay: int): Slot
    requires resourceIds != []
  {
    var (index, day, start) := PlaceOf(k, |resourceIds|, firstDay);
    Slot(resourceIds[index], DayText(day), FormatHour(start), FormatHour(start + 1))
  }

  lemma RemainderBelow(k: nat, perHour: nat)
    requires perHour > 0
    ensures 0 <= k % (perHour * 15) / perHour < 15
    ensures k % (perHour * 15) % perHour == k % perHour
  {
    var perDay := perHour * 15;
    DivisionBounds(k, perDay);
    var d, rest := k / perDay, k % perDay;
    DivisionBounds(rest, perHour);
    QuotientBelow(rest, perHour, 15);
    var h, i := rest / perHour, rest % perHour;
    assert d * perDay + h * perHour + i == (d * 15 + h) * perHour + i;
    SameRemainder(k, d * 15 + h, perHour, i);
  }

  /** Slots lie inside the opening hours 07:00 to 22:00. */
  lemma SlotHours(k: nat, perHour: nat, firstDay: int)
    requires perHour > 0
    ensures var (index, day, start) := PlaceOf(k, perHour, firstDay);
            index < perHour && firstDay <= day && 7 <= start <= 21
  {
    RemainderBelow(k, perHour);
    DivisionBounds(k, perHour);
    DivisionBounds(k, perHour * 15);
  }

  /** The number is read back from the place. */
  lemma PlaceDecodes(k: nat, perHour: nat, firstDay: int)
    requires perHour > 0
    ensures var (index, day, start) := PlaceOf(k, perHour, firstDay);
            k == ((day - firstDay) * 15 + (start - 7)) * perHour + index
  {
    RemainderBelow(k, perHour);
    var perDay := perHour * 15;
    var rest := k % perDay;
    assert k == k / perDay * perDay + rest;
    assert rest == rest / perHour * perHour + rest % perHour;
    assert k / perDay * perDay == k / perDay * 15 * perHour;
  }

  lemma RestBelow(h: nat, index: nat, perHour: nat)
    requires index < perHour && h <= 14
    ensures h * perHour + index < perHour * 15
  {
  }

  lemma LowDigits(d: nat, h: nat, index: nat, perHour: nat)
    requires index < perHour && h <= 14
    ensures var k := d * (perHour * 15) + (h * perHour + index);
            k / (perHour * 15) == d && k % (perHour * 15) / perHour == h && k % perHour == index
  {
    RestBelow(h, index, perHour);
    var k := d * (perHour * 15) + (h * perHour + index);
    SameRemainder(k, d, perHour * 15, h * perHour + index);
    SameRemainder(h * perHour + index, h, perHour, index);
    assert d * (perHour * 15) + (h * perHour + index) == (d * 15 + h) * perHour + index;
    SameRemainder(k, d * 15 + h, perHour, index);
  }

  /** Every place from the first day on is the place of one number. */
  lemma EveryPlaceIsTaken(index: nat, day: int, start: nat, perHour: nat, firstDay: int) returns (k: nat)
    requires index < perHour && firstDay <= day && 7 <= start <= 21
    ensures PlaceOf(k, perHour, firstDay) == (index, day, start)
  {
    var d, h := day - firstDay, start - 7;
    LowDigits(d, h, index, perHour);
    k := d * (perHour * 15) + (h * perHour + index);
  }

  ghost predicate Distinct(ids: seq<Id>) {
    forall i, j :: 0 <= i < j < |ids| ==> ids[i] != ids[j]
  }

  /** Two slots on one resource and date are slots of different hours, or the same slot. */
  lemma SlotsNeverCollide(j: nat, k: nat, resourceIds: seq<Id>, firstDay: int)
    requires resourceIds != [] && Distinct(resourceIds) && j != k
    requires FourDigits(PlaceOf(j, |resourceIds|, firstDay).1) && FourDigits(PlaceOf(k, |resourceIds|, firstDay).1)
    ensures var a, b := UniqueSlot(j, resourceIds, firstDay), UniqueSlot(k, resourceIds, firstDay);
            a.resourceId == b.resourceId && a.date == b.date ==>
              !Less(a.startTime, b.endTime) || !Less(b.startTime, a.endTime)
  {
    hide PlaceOf, DayText, FormatHour, Less;
    var n := |resourceIds|;
    var (i, day, start) := PlaceOf(j, n, firstDay);
    var (i', day', start') := PlaceOf(k, n, firstDay);
    SlotHours(j, n, firstDay);
    SlotHours(k, n, firstDay);
    PlaceDecodes(j, n, firstDay);
    PlaceDecodes(k, n, firstDay);
    DayTextOrder(day, day');
    HourTextOrder(start, start' + 1);
    HourTextOrder(start', start + 1);
  }
}
