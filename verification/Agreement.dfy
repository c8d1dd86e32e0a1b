/** The discovery filter, the resolved availability slots and booking creation decide alike. */
module Agreement {
  import opened Availability
  import opened Bookings
  import opened Calendar
  import opened Campus
  import opened CampusClock
  import opened Resources
  import opened Wrappers

  // -------------------------------------------------------- four-way agreement

  /** The resource is listed by `discover` for the interval. */
  ghost predicate DiscoverLists(db: Database, request: BookingRequest, now: int) {
    PassesDateCheck(request.date)
    && request.startHour < request.endHour
    && IsFuture(DayNumber(request.date), request.startHour, now)
    && PassesTimeFilter(db, request.resourceId, DayNumber(request.date), request.startHour, request.endHour)
  }

  /** The interval resolves to an available one against the response for its day. */
  predicate ResolverOffers(db: Database, request: BookingRequest, now: int) {
    PassesDateCheck(request.date)
    && var view := View(db, request.resourceId, DayNumber(request.date), now);
       view.Some? && Resolve(view.value, Some(request.startHour), Some(request.endHour)).isSlotAvailable
  }

  predicate CreateSucceeds(db: Database, requesterId: Id, request: BookingRequest, newId: Id, now: int) {
    ExecuteCreate(db, requesterId, request, newId, now).failure.None?
  }

  /** No booking takes an hour of the interval, and it starts in the future. */
  ghost predicate Undisturbed(db: Database, resourceId: Id, day: int, s: nat, e: nat, now: int) {
    IsFuture(day, s, now)
    && !exists id :: db.Blocks(id, resourceId, day) && db.bookings[id].startHour < e && db.bookings[id].endHour > s
  }

  /** The specification the three decisions share. */
  ghost predicate Bookable(db: Database, resourceId: Id, day: int, s: nat, e: nat, now: int) {
    resourceId in db.resources && Operational(db.resources[resourceId], day, s, e) && !db.Closed(resourceId, day)
    && Undisturbed(db, resourceId, day, s, e, now)
  }

  /** CHK_bookings_time_order and CHK_bookings_supported_time_range over the table. */
  ghost predicate HoursOrdered(db: Database) {
    forall id :: id in db.bookings ==> TimeOrder(db.bookings[id])
  }

  lemma BusyMeansBlocked(db: Database, resourceId: Id, day: int, s: nat, e: nat)
    ensures (exists b :: b in db.BusyOn(resourceId, day) && b.startHour < e && b.endHour > s)
       <==> (exists id ::
               db.Blocks(id, resourceId, day) && db.bookings[id].startHour < e && db.bookings[id].endHour > s)
  {
    if id :| db.Blocks(id, resourceId, day) && db.bookings[id].startHour < e && db.bookings[id].endHour > s {
      assert IntervalOf(db.bookings[id]) in db.BusyOn(resourceId, day);
    }
  }

  /** A booking that disturbs an interval takes one of its hours. */
  lemma DisturbedHour(db: Database, resourceId: Id, day: int, s: nat, e: nat, now: int, id: Id) returns (h: nat)
    requires s < e && db.Blocks(id, resourceId, day) && TimeOrder(db.bookings[id])
    requires db.bookings[id].startHour < e && db.bookings[id].endHour > s
    ensures s <= h < e && !SlotFree(db.BusyOn(resourceId, day), day, SlotAt(h), now)
  {
    var b := db.bookings[id];
    h := if b.startHour < s then s else b.startHour;
    assert IntervalOf(b) in db.BusyOn(resourceId, day);
  }

  /** An interval is undisturbed exactly when each of its hours is. */
  lemma UndisturbedByHours(db: Database, resourceId: Id, day: int, s: nat, e: nat, now: int)
    requires s < e && HoursOrdered(db)
    ensures Undisturbed(db, resourceId, day, s, e, now)
       <==> forall h: nat :: s <= h < e ==> SlotFree(db.BusyOn(resourceId, day), day, SlotAt(h), now)
  {
    forall h: nat | s <= h < e
      ensures SlotFree(db.BusyOn(resourceId, day), day, SlotAt(h), now)
              <==> Undisturbed(db, resourceId, day, h, h + 1, now)
    {
      BusyMeansBlocked(db, resourceId, day, h, h + 1);
    }
    if forall h: nat :: s <= h < e ==> SlotFree(db.BusyOn(resourceId, day), day, SlotAt(h), now) {
      assert SlotFree(db.BusyOn(resourceId, day), day, SlotAt(s), now);
      if id :| db.Blocks(id, resourceId, day) && db.bookings[id].startHour < e && db.bookings[id].endHour > s {
        var h := DisturbedHour(db, resourceId, day, s, e, now, id);
      }
    }
  }

  lemma CreateIsBookable(db: Database, requesterId: Id, request: BookingRequest, newId: Id, now: int)
    requires HoursOrdered(db) && newId !in db.bookings
    requires PassesDateCheck(request.date) && request.startHour < request.endHour
    ensures CreateSucceeds(db, requesterId, request, newId, now)
       <==> Bookable(db, request.resourceId, DayNumber(request.date), request.startHour, request.endHour, now)
  {
    var day := DayNumber(request.date);
    hide DayNumber, PassesDateCheck;
    if request.resourceId in db.resources
       && Operational(db.resources[request.resourceId], day, request.startHour, request.endHour) {
      var row := NewBooking(db.resources[request.resourceId], requesterId, request, now);
      forall id | id in db.bookings
        ensures Conflict(db.bookings[id], row) <==>
                  db.Blocks(id, request.resourceId, day) && db.bookings[id].startHour < request.endHour
                    && db.bookings[id].endHour > request.startHour
      {
        OverlapOnOneDate(db.bookings[id], row);
      }
    }
  }

  /** The hours of an interval are all shown exactly when the day is not blocked and each hour is free. */
  lemma CoveredIsFree(r: Resource, day: int, closure: Option<Closure>, busy: set<Interval>, now: int, s: Hour, e: Hour)
    requires s < e && r.opensAt <= s && e <= r.closesAt
    ensures CoversAll(ResponseFor(r, day, closure, busy, now).slots, s, e)
       <==> BlockedReasonFor(r, day, closure).None?
            && forall h: nat :: s <= h < e ==> SlotFree(busy, day, SlotAt(h), now)
  {
    ResponseSlots(r, day, closure, busy, now);
    hide ResponseFor, SlotFree, BlockedReasonFor, Ascending;
    var slots := ResponseFor(r, day, closure, busy, now).slots;
    if CoversAll(slots, s, e) {
      assert SlotAt(s) in slots;
    }
  }

  lemma ResolverIsBookable(db: Database, request: BookingRequest, now: int)
    requires HoursOrdered(db) && PassesDateCheck(request.date)
    ensures ResolverOffers(db, request, now)
            <==> request.startHour < request.endHour
                 && Bookable(db, request.resourceId, DayNumber(request.date), request.startHour, request.endHour, now)
  {
    var id, day, s, e := request.resourceId, DayNumber(request.date), request.startHour, request.endHour;
    hide DayNumber, PassesDateCheck;
    if id in db.resources {
      var r := db.resources[id];
      var closure := if db.Closed(id, day) then Some(db.closures[(id, day)]) else None;
      var a := ResponseFor(r, day, closure, db.BusyOn(id, day), now);
      ResponseSlots(r, day, closure, db.BusyOn(id, day), now);
      assert a.opensAt == r.opensAt && a.closesAt == r.closesAt;
      ResolvesByHours(a, s, e);
      hide Resolve, ResponseFor, SlotFree, Undisturbed, CoversAll, Ascending, WeekdayOf;
      if s < e && r.opensAt <= s && e <= r.closesAt {
        UndisturbedByHours(db, id, day, s, e, now);
        CoveredIsFree(r, day, closure, db.BusyOn(id, day), now, s, e);
      }
    }
  }

  /** At one snapshot and one instant, discovery, the resolved slots and creation decide alike. */
  lemma FourWayAgreement(db: Database, requesterId: Id, request: BookingRequest, newId: Id, now: int)
    requires HoursOrdered(db) && newId !in db.bookings
    ensures DiscoverLists(db, request, now) <==> CreateSucceeds(db, requesterId, request, newId, now)
    ensures ResolverOffers(db, request, now) <==> CreateSucceeds(db, requesterId, request, newId, now)
  {
    if PassesDateCheck(request.date) {
      ResolverIsBookable(db, request, now);
      if request.startHour < request.endHour {
        CreateIsBookable(db, requesterId, request, newId, now);
      }
    }
  }

  lemma {:induction false} FindStartMember(slots: seq<Slot>, startHour: nat)
    ensures Ascending(slots)
            ==> FindStart(slots, startHour) == if SlotAt(startHour) in slots then Some(SlotAt(startHour)) else None
  {
    if slots != [] {
      assert HourSlot(slots[0]) || !Ascending(slots);
      FindStartMember(slots[1..], startHour);
    }
  }

  /** Naming only a start selects that hour, available exactly when the one-hour interval is. */
  lemma StartOnlySelectsHour(r: Resource, day: int, closure: Option<Closure>, busy: set<Interval>, now: int, s: Hour)
    requires ResourceChecks(r)
    ensures var a := ResponseFor(r, day, closure, busy, now);
            var single := Resolve(a, Some(s), None);
            single.isSlotAvailable == (s < 23 && Resolve(a, Some(s), Some(s + 1)).isSlotAvailable)
            && single.selectedSlot == if single.isSlotAvailable then Some(SlotAt(s)) else None
  {
    var a := ResponseFor(r, day, closure, busy, now);
    ResponseSlots(r, day, closure, busy, now);
    FindStartMember(a.slots, s);
    if s < 23 {
      ResolvesByHours(a, s, s + 1);
      assert CoversAll(a.slots, s, s + 1) <==> SlotAt(s) in a.slots;
    }
  }
}
