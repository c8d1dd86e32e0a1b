/**
 * The views that decide whether an interval can be booked: the discovery
 * filter, the hourly slots of the availability response, and the interval
 * resolver of the frontend.
 */
module Availability {
  import opened Bookings
  import opened Calendar
  import opened CampusClock
  import opened Resources
  import opened Wrappers

  /** One hour of an availability response, as the hours its texts name. */
  datatype Slot = Slot(startHour: nat, endHour: nat)

  datatype BlockedReason = InMaintenance | NotActive | ClosedForDay(reason: string) | ClosedWeekday

  datatype Response = Response(
    status: ResourceStatus,
    operatingDays: set<int>,
    opensAt: nat,
    closesAt: nat,
    blockedReason: Option<BlockedReason>,
    requiresApproval: bool,
    slots: seq<Slot>)

  // -------------------------------------------------------------- generator

  /** `hourlySlots` */
  function HourlySlots(opensAt: nat, closesAt: nat): seq<Slot> {
    if closesAt <= opensAt then [] else HourlySlots(opensAt, closesAt - 1) + [Slot(closesAt - 1, closesAt)]
  }

  /** `slots.filter(keep)` */
  function Filter(slots: seq<Slot>, keep: Slot -> bool): seq<Slot> {
    if slots == [] then []
    else
      var last := slots[|slots| - 1];
      Filter(slots[..|slots| - 1], keep) + if keep(last) then [last] else []
  }

  /** The slot starts in the future and no booking overlaps it. */
  predicate SlotFree(busy: set<Interval>, day: int, slot: Slot, now: int) {
    IsFuture(day, slot.startHour, now)
    && !exists b :: b in busy && b.startHour < slot.endHour && b.endHour > slot.startHour
  }

  function BlockedReasonFor(r: Resource, day: int, closure: Option<Closure>): Option<BlockedReason> {
    if r.status == Maintenance then Some(InMaintenance)
    else if r.status == Inactive then Some(NotActive)
    else if closure.Some? then Some(ClosedForDay(closure.value.reason))
    else if WeekdayOf(day) !in r.operatingDays then Some(ClosedWeekday)
    else None
  }

  /** `fromResource` */
  function ResponseFor(r: Resource, day: int, closure: Option<Closure>, busy: set<Interval>, now: int): Response {
    var blocked := BlockedReasonFor(r, day, closure);
    Response(r.status, r.operatingDays, r.opensAt, r.closesAt, blocked, r.requiresApproval,
             if blocked.None? then Filter(HourlySlots(r.opensAt, r.closesAt), slot => SlotFree(busy, day, slot, now))
                else [])
  }

  /** The response over one snapshot of the tables; None when the resource does not exist. */
  function View(db: Database, resourceId: Id, day: int, now: int): Option<Response> {
    if resourceId !in db.resources then None
    else
      var closure := if db.Closed(resourceId, day) then Some(db.closures[(resourceId, day)]) else None;
      Some(ResponseFor(db.resources[resourceId], day, closure, db.BusyOn(resourceId, day), now))
  }

  /** The loop of `hourlySlots`. */
  method GenerateHourlySlots(opensAt: nat, closesAt: nat) returns (slots: seq<Slot>)
    ensures slots == HourlySlots(opensAt, closesAt)
  {
    slots := [];
    var hour := opensAt;
    while hour < closesAt
      invariant opensAt <= hour
      invariant hour <= closesAt || hour == opensAt
      invariant slots == HourlySlots(opensAt, hour)
    {
      slots := slots + [Slot(hour, hour + 1)];
      hour := hour + 1;
    }
    assert hour == closesAt || closesAt <= opensAt;
  }

  function IntervalsOf(bookings: seq<Booking>): set<Interval> {
    set b | b in bookings :: IntervalOf(b)
  }

  /** `fromResource`: the reasons are tried in order, and only an open day gets slots. */
  method FromResource(r: Resource, day: int, closure: Option<Closure>, bookings: seq<Booking>, now: int)
      returns (response: Response)
    ensures response == ResponseFor(r, day, closure, IntervalsOf(bookings), now)
  {
    var blocked: Option<BlockedReason> := None;
    if r.status == Maintenance {
      blocked := Some(InMaintenance);
    } else if r.status == Inactive {
      blocked := Some(NotActive);
    } else if closure.Some? {
      blocked := Some(ClosedForDay(closure.value.reason));
    } else if WeekdayOf(day) !in r.operatingDays {
      blocked := Some(ClosedWeekday);
    }
    var slots: seq<Slot> := [];
    if blocked.None? {
      var hourly := GenerateHourlySlots(r.opensAt, r.closesAt);
      slots := Filter(hourly, slot => SlotFree(IntervalsOf(bookings), day, slot, now));
    }
    response := Response(r.status, r.operatingDays, r.opensAt, r.closesAt, blocked, r.requiresApproval, slots);
  }

  // --------------------------------------------------------------- resolver

  datatype Selection = Selection(selectedSlot: Option<Slot>, isSlotAvailable: bool)

  const NO_SELECTION := Selection(None, false)

  /** The first slot that starts at `startHour`. */
  function FindStart(slots: seq<Slot>, startHour: nat): Option<Slot> {
    if slots == [] then None
    else if slots[0].startHour == startHour then Some(slots[0])
    else FindStart(slots[1..], startHour)
  }

  predicate Contiguous(slots: seq<Slot>) {
    forall i :: 0 < i < |slots| ==> slots[i - 1].endHour == slots[i].startHour
  }

  /** The resolver's test of the covered slots: right ends, no gap. */
  predicate JoinsUp(covered: seq<Slot>, s: nat, e: nat) {
    covered != [] && covered[0].startHour == s && covered[|covered| - 1].endHour == e && Contiguous(covered)
  }

  /** `resolveSlotSelection` */
  function Resolve(a: Response, startTime: Option<Hour>, endTime: Option<Hour>): Selection {
    if startTime.None? then NO_SELECTION
    else if endTime.None? then
      var slot := FindStart(a.slots, startTime.value);
      if slot.Some? then Selection(slot, true) else NO_SELECTION
    else
      var s, e := startTime.value, endTime.value;
      if s >= e || s < a.opensAt || e > a.closesAt then NO_SELECTION
      else
        var covered := Filter(a.slots, (slot: Slot) => s <= slot.startHour && slot.endHour <= e);
        Selection(Some(Slot(s, e)),
                  JoinsUp(covered, s, e))
  }

  // -------------------------------------------------------------- discovery

  /** The time part of `discoverFrom`, for an interval that `discover` lets through. */
  ghost predicate PassesTimeFilter(db: Database, resourceId: Id, day: int, s: nat, e: nat) {
    resourceId in db.resources
    && db.resources[resourceId].status == Active
    && WeekdayOf(day) in db.resources[resourceId].operatingDays
    && db.resources[resourceId].opensAt <= s && db.resources[resourceId].closesAt >= e
    && !db.Closed(resourceId, day)
    && !exists id :: db.Blocks(id, resourceId, day) && db.bookings[id].startHour < e && db.bookings[id].endHour > s
  }

  // ------------------------------------------------------------------ proof

  predicate HourSlot(slot: Slot) {
    slot.endHour == slot.startHour + 1
  }

  /** One-hour slots in increasing order. */
  predicate Ascending(slots: seq<Slot>) {
    (forall i :: 0 <= i < |slots| ==> HourSlot(slots[i]))
    && forall i, j :: 0 <= i < j < |slots| ==> slots[i].startHour < slots[j].startHour
  }

  lemma {:induction false} HourlySlotsContent(opensAt: nat, closesAt: nat)
    ensures Ascending(HourlySlots(opensAt, closesAt))
    ensures forall slot ::
              slot in HourlySlots(opensAt, closesAt) <==> HourSlot(slot) && opensAt <= slot.startHour < closesAt
  {
    if closesAt > opensAt {
      HourlySlotsContent(opensAt, closesAt - 1);
      var front := HourlySlots(opensAt, closesAt - 1);
      AppendedAscends(front, Slot(closesAt - 1, closesAt));
    }
  }

  /** An hour after all others keeps the order and is the one new element. */
  lemma AppendedAscends(slots: seq<Slot>, last: Slot)
    requires Ascending(slots) && HourSlot(last) && forall slot :: slot in slots ==> slot.startHour < last.startHour
    ensures Ascending(slots + [last])
    ensures forall slot :: slot in slots + [last] <==> slot in slots || slot == last
  {
    assert forall i :: 0 <= i < |slots| ==> slots[i] in slots;
  }

  lemma {:induction false} FilterMembers(slots: seq<Slot>, keep: Slot -> bool)
    ensures forall slot :: slot in Filter(slots, keep) <==> slot in slots && keep(slot)
  {
    if slots != [] {
      var front, last := slots[..|slots| - 1], slots[|slots| - 1];
      FilterMembers(front, keep);
      assert slots == front + [last];
    }
  }

  lemma {:induction false} FilterAscends(slots: seq<Slot>, keep: Slot -> bool)
    requires Ascending(slots)
    ensures Ascending(Filter(slots, keep))
  {
    if slots != [] {
      var front, last := slots[..|slots| - 1], slots[|slots| - 1];
      FilterAscends(front, keep);
      FilterMembers(front, keep);
      var kept := Filter(front, keep);
      forall i | 0 <= i < |kept|
        ensures kept[i].startHour < last.startHour
      {
        assert kept[i] in kept;
        var j :| 0 <= j < |front| && front[j] == kept[i];
        assert slots[j] == kept[i];
      }
    }
  }

  function SlotAt(hour: nat): Slot {
    Slot(hour, hour + 1)
  }

  predicate CoversAll(slots: seq<Slot>, s: nat, e: nat) {
    forall h: nat :: s <= h < e ==> SlotAt(h) in slots
  }

  predicate Within(slots: seq<Slot>, s: nat, e: nat) {
    forall slot :: slot in slots ==> s <= slot.startHour && slot.endHour <= e
  }

  lemma {:induction false} ChainPositions(covered: seq<Slot>, s: nat, i: nat)
    requires Ascending(covered) && Contiguous(covered) && i < |covered| && covered[0].startHour == s
    ensures covered[i] == SlotAt(s + i)
  {
    if i > 0 {
      ChainPositions(covered, s, i - 1);
      assert HourSlot(covered[i]);
    }
  }

  lemma {:induction false} Spread(covered: seq<Slot>, s: nat, e: nat, i: nat)
    requires Ascending(covered) && Within(covered, s, e) && i < |covered|
    ensures s + i <= covered[i].startHour
  {
    assert covered[i] in covered;
    if i > 0 {
      Spread(covered, s, e, i - 1);
    }
  }

  lemma {:induction false} CompletePositions(covered: seq<Slot>, s: nat, e: nat, i: nat)
    requires s + i < e && Ascending(covered) && Within(covered, s, e) && CoversAll(covered, s, e)
    ensures i < |covered| && covered[i] == SlotAt(s + i)
  {
    assert SlotAt(s + i) in covered;
    var p :| 0 <= p < |covered| && covered[p] == SlotAt(s + i);
    Spread(covered, s, e, p);
    if p < i {
      CompletePositions(covered, s, e, p);
    }
  }

  lemma CompleteJoinsUp(covered: seq<Slot>, s: nat, e: nat)
    requires s < e && Ascending(covered) && Within(covered, s, e) && CoversAll(covered, s, e)
    ensures JoinsUp(covered, s, e)
  {
    CompletePositions(covered, s, e, 0);
    CompletePositions(covered, s, e, e - s - 1);
    Spread(covered, s, e, |covered| - 1);
    assert covered[|covered| - 1] in covered;
    forall i | 0 < i < |covered|
      ensures covered[i - 1].endHour == covered[i].startHour
    {
      CompletePositions(covered, s, e, i - 1);
      CompletePositions(covered, s, e, i);
    }
  }

  /** The resolver's test on the ends and the joints says that every hour is there. */
  lemma JoinsUpIsComplete(covered: seq<Slot>, s: nat, e: nat)
    requires s < e && Ascending(covered) && Within(covered, s, e)
    ensures JoinsUp(covered, s, e) <==> CoversAll(covered, s, e)
  {
    if JoinsUp(covered, s, e) {
      ChainPositions(covered, s, |covered| - 1);
      forall h: nat | s <= h < e
        ensures SlotAt(h) in covered
      {
        ChainPositions(covered, s, h - s);
      }
    } else if CoversAll(covered, s, e) {
      CompleteJoinsUp(covered, s, e);
    }
  }

  /** The hours of an availability response: exactly the free hours of an unblocked day. */
  lemma ResponseSlots(r: Resource, day: int, closure: Option<Closure>, busy: set<Interval>, now: int)
    ensures var a := ResponseFor(r, day, closure, busy, now);
            Ascending(a.slots) && forall h: nat :: SlotAt(h) in a.slots <==>
              BlockedReasonFor(r, day, closure).None? && r.opensAt <= h < r.closesAt
                && SlotFree(busy, day, SlotAt(h), now)
  {
    HourlySlotsContent(r.opensAt, r.closesAt);
    var free := (slot: Slot) => SlotFree(busy, day, slot, now);
    FilterMembers(HourlySlots(r.opensAt, r.closesAt), free);
    FilterAscends(HourlySlots(r.opensAt, r.closesAt), free);
  }

  /** On any response with ascending slots, an interval is available exactly when each of its hours is. */
  lemma ResolvesByHours(a: Response, s: Hour, e: Hour)
    requires Ascending(a.slots)
    ensures Resolve(a, Some(s), Some(e)).isSlotAvailable
       <==> s < e && a.opensAt <= s && e <= a.closesAt && CoversAll(a.slots, s, e)
  {
    if s < e && a.opensAt <= s && e <= a.closesAt {
      var keep := (slot: Slot) => s <= slot.startHour && slot.endHour <= e;
      var covered := Filter(a.slots, keep);
      FilterMembers(a.slots, keep);
      FilterAscends(a.slots, keep);
      JoinsUpIsComplete(covered, s, e);
      assert CoversAll(covered, s, e) <==> CoversAll(a.slots, s, e) by {
        if CoversAll(a.slots, s, e) {
          forall h: nat | s <= h < e
            ensures SlotAt(h) in covered
          {
            assert SlotAt(h) in a.slots && keep(SlotAt(h));
          }
        }
      }
    }
  }
}
