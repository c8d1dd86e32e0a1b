/** What transactions of the booking and resource services mean to each other: one takes what another gives back. */
module BookingStories {
  import opened Agreement
  import opened Availability
  import opened Bookings
  import opened Calendar
  import opened Campus
  import opened CampusInvariants
  import opened CampusRuns
  import opened Resources
  import opened Wrappers

  /** Creating adds one row and changes none. */
  lemma CreateAddsOneRow(db: Database, requesterId: Id, request: BookingRequest, newId: Id, now: int)
    requires CreateSucceeds(db, requesterId, request, newId, now)
    ensures var after := ExecuteCreate(db, requesterId, request, newId, now).db;
            newId !in db.bookings && after.bookings.Keys == db.bookings.Keys + {newId}
            && (forall id :: id in db.bookings ==> after.bookings[id] == db.bookings[id])
            && after.resources == db.resources && after.closures == db.closures
  {
    hide DayNumber, RequestError, Operational, Excluded, NewBooking;
  }

  /**
   * A booking is made for the person, the resource and the hours asked for, and waits for review
   * exactly where the resource demands it.
   */
  lemma CreateStoresRequest(db: Database, requesterId: Id, request: BookingRequest, newId: Id, now: int, reviewer: Id)
    requires CreateSucceeds(db, requesterId, request, newId, now)
    ensures request.resourceId in db.resources
    ensures var after := ExecuteCreate(db, requesterId, request, newId, now).db;
            newId in after.bookings
            && var b := after.bookings[newId];
               b.requesterId == requesterId && b.resourceId == request.resourceId
               && CivilOf(b.date) == request.date && b.startHour == request.startHour && b.endHour == request.endHour
               && b.createdAt == now && b.Blocking()
               && (Advance(b, Approve(reviewer), now).Ok? <==> db.resources[request.resourceId].requiresApproval)
  {
    hide DayNumber, PassesDateCheck, Operational, Excluded, CivilOf, NewBooking, RequestError, Advance;
    if request.resourceId in db.resources && RequestError(request, now).None? {
      NewBookingReads(db.resources[request.resourceId], requesterId, request, now, reviewer);
    }
  }

  lemma NewBookingReads(r: Resource, requesterId: Id, request: BookingRequest, now: int, reviewer: Id)
    requires RequestError(request, now).None?
    ensures var b := NewBooking(r, requesterId, request, now);
            b.requesterId == requesterId && b.resourceId == request.resourceId
            && CivilOf(b.date) == request.date && b.startHour == request.startHour && b.endHour == request.endHour
            && b.createdAt == now && b.Blocking()
            && (Advance(b, Approve(reviewer), now).Ok? <==> r.requiresApproval)
  {
    DateCheckExact(request.date);
    DayNumberRoundTrip(request.date);
    hide DayNumber, PassesDateCheck, CivilOf;
  }

  /** A row that blocks the same hours of the same resource and date stands in the way of the request. */
  lemma BlockingRowExcludes(db: Database, id: Id, otherId: Id, other: BookingRequest, nextId: Id, later: int)
    requires id in db.bookings && db.bookings[id].Blocking() && TimeOrder(db.bookings[id])
    requires db.bookings[id].resourceId == other.resourceId && db.bookings[id].date == DayNumber(other.date)
    requires db.bookings[id].startHour < other.endHour && other.startHour < db.bookings[id].endHour
    ensures !CreateSucceeds(db, otherId, other, nextId, later)
  {
    hide DayNumber, PassesDateCheck, Operational;
    if RequestError(other, later).None? && other.resourceId in db.resources {
      var row := NewBooking(db.resources[other.resourceId], otherId, other, later);
      OverlapOnOneDate(db.bookings[id], row);
      assert Conflict(db.bookings[id], row);
    }
  }

  /**
   * As long as a booking stands, no overlapping interval can be booked, by whomever and after
   * whatever else happened.
   */
  lemma CreateTakesTheSlot(db: Database, requesterId: Id, request: BookingRequest, newId: Id, now: int, run: seq<Timed>,
                           otherId: Id, other: BookingRequest, nextId: Id, later: int)
    requires Sound(db, now) && CreateSucceeds(db, requesterId, request, newId, now) && ClockAdvances(now, run)
    requires other.resourceId == request.resourceId && other.date == request.date
    requires other.startHour < request.endHour && request.startHour < other.endHour
    ensures var after := Replay(ExecuteCreate(db, requesterId, request, newId, now).db, run);
            newId in after.bookings
              && (after.bookings[newId].Blocking() ==> !CreateSucceeds(after, otherId, other, nextId, later))
  {
    hide Sound, Replay, ExecuteCreate, DayNumber, PassesDateCheck;
    var booked := ExecuteCreate(db, requesterId, request, newId, now).db;
    CreateKeepsSound(db, requesterId, request, newId, now);
    CreatedSlot(db, requesterId, request, newId, now);
    BookingOverRun(booked, now, run, newId);
    var after := Replay(booked, run);
    if after.bookings[newId].Blocking() {
      BlockingRowExcludes(after, newId, otherId, other, nextId, later);
    }
  }

  lemma CreatedSlot(db: Database, requesterId: Id, request: BookingRequest, newId: Id, now: int)
    requires CreateSucceeds(db, requesterId, request, newId, now)
    ensures var after := ExecuteCreate(db, requesterId, request, newId, now).db;
            newId in after.bookings
            && var b := after.bookings[newId];
               TimeOrder(b) && b.resourceId == request.resourceId && b.date == DayNumber(request.date)
               && b.startHour == request.startHour && b.endHour == request.endHour
  {
    hide DayNumber, PassesDateCheck, Operational, Excluded;
  }

  /** Cancelling at once undoes a booking: it succeeds, and every view of every resource and date is as before. */
  lemma CancelUndoesCreate(db: Database, requesterId: Id, request: BookingRequest, newId: Id, now: int, resourceId: Id,
                           day: int, at: int)
    requires CreateSucceeds(db, requesterId, request, newId, now)
    ensures var booked := ExecuteCreate(db, requesterId, request, newId, now).db;
            var out := ExecuteProgress(booked, newId, Cancel(requesterId), now);
            out.failure.None? && View(out.db, resourceId, day, at) == View(db, resourceId, day, at)
  {
    hide DayNumber, PassesDateCheck, Operational, Excluded;
    var booked := ExecuteCreate(db, requesterId, request, newId, now).db;
    var row := booked.bookings[newId];
    assert CanCancel(row, now);
    var freed := row.(status := Cancelled, cancelledAt := Some(now));
    assert ExecuteProgress(booked, newId, Cancel(requesterId), now).db == db.(bookings := db.bookings[newId := freed]);
    hide CanCancel, View;
    BusyAfterPut(db, newId, freed, resourceId, day);
    SameInputsSameView(db.(bookings := db.bookings[newId := freed]), db, resourceId, day, at);
  }

  /** Reopening by the id of a closure just made undoes it. */
  lemma ReopenUndoesClose(db: Database, id: Id, date: WrittenDate, closure: Closure, now: int)
    requires ExecuteCreateClosure(db, id, date, closure, now).failure.None?
    ensures var closed := ExecuteCreateClosure(db, id, date, closure, now).db;
            ExecuteDeleteClosure(closed, id, closure.id)
              == Outcome(db, None, [AvailabilityChanged(id, DayNumber(date))])
  {
    hide DayNumber, PassesDateCheck, ClosureConflicts;
    var closed := ExecuteCreateClosure(db, id, date, closure, now).db;
    var key := (id, DayNumber(date));
    assert IsClosure(closed, id, closure.id, key);
    assert forall k: (Id, int) :: IsClosure(closed, id, closure.id, k) ==> k == key;
    assert (map k | k in closed.closures && !IsClosure(closed, id, closure.id, k) :: closed.closures[k]) == db.closures;
  }

  /**
   * Approved but never checked in: recording the no-show is possible from the end on and keeps the
   * request on record, but not its code.
   */
  lemma UnattendedVisit(b: Booking, reviewer: Id, seed: CodeSeed, desk: Id, t1: int, t2: int, t3: int)
    requires SoundRow(b, t1) && b.status == Pending
    requires t1 < b.EndMs() && InCheckInWindow(b, t2) && t1 <= t2 <= t3
    ensures var approved := Advance(b, Approve(reviewer), t1);
            approved.Ok? &&
            var requested := Advance(approved.value, RequestCheckIn(b.requesterId, seed), t2);
            requested.Ok? &&
            Advance(requested.value, MarkNoShow(desk), t3)
            == if t3 < b.EndMs() then Err(NoShowNotAvailable)
               else Ok(b.(status := NoShow, reviewedAt := Some(t1), reviewedById := Some(reviewer),
                          checkInRequestedAt := Some(t2), noShowAt := Some(t3), noShowById := Some(desk)))
  {
  }

  /** Once a code is generated the student can no longer cancel; before that, until the start, they can. */
  lemma CodeEndsCancellation(b: Booking, reviewer: Id, seed: CodeSeed, t1: int, t2: int, t3: int)
    requires SoundRow(b, t1) && b.status == Pending && t1 < b.EndMs()
    ensures var approved := Advance(b, Approve(reviewer), t1);
            approved.Ok?
            && Advance(approved.value, Cancel(b.requesterId), t3)
            == (if t3 < b.StartMs()
                then Ok(b.(status := Cancelled, reviewedAt := Some(t1), reviewedById := Some(reviewer),
                           cancelledAt := Some(t3)))
                else Err(BookingNotCancellable))
            && var requested := Advance(approved.value, RequestCheckIn(b.requesterId, seed), t2);
               (requested.Ok? <==> InCheckInWindow(b, t2))
               && (requested.Ok? ==> Advance(requested.value, Cancel(b.requesterId), t3) == Err(BookingNotCancellable))
  {
  }

  /** Whatever ended a booking, no command changes it any more. */
  lemma EndedForGood(b: Booking, command: Lifecycle, now: int)
    requires SatisfiesChecks(b) && !b.Blocking()
    ensures Advance(b, command, now).Err?
  {
    AdvanceReleases(b, command, now);
  }

  // ------------------------------------------------- resources over runs

  /** The command inserts the resource, or writes it from the catalog. */
  predicate SetsRow(command: Command, id: Id, code: string) {
    (command.CreateResource? && command.newId == id)
    || (command.ImportResource? && (command.row.code == code || command.newId == id))
  }

  /** The command may write the status of the resource. */
  predicate SetsStatus(command: Command, id: Id, code: string) {
    (command.UpdateStatus? && command.resourceId == id) || SetsRow(command, id, code)
  }

  /** The command may write the operating days and hours of the resource. */
  predicate SetsSchedule(command: Command, id: Id, code: string) {
    (command.UpdateResource? && command.resourceId == id) || SetsRow(command, id, code)
  }

  predicate SameSchedule(a: Resource, b: Resource) {
    a.operatingDays == b.operatingDays && a.opensAt == b.opensAt && a.closesAt == b.closesAt
  }

  /** Until something sets its status the resource keeps it, unless it is deleted. */
  ghost predicate KeepsStatus(db: Database, id: Id, r: Resource) {
    id in db.resources ==> db.resources[id].code == r.code && db.resources[id].status == r.status
  }

  ghost predicate KeepsSchedule(db: Database, id: Id, r: Resource) {
    id in db.resources ==> db.resources[id].code == r.code && SameSchedule(db.resources[id], r)
  }

  lemma StepOnResource(db: Database, command: Command, now: int, id: Id, r: Resource)
    ensures var after := Execute(db, command, now).db;
            (KeepsStatus(db, id, r) && !SetsStatus(command, id, r.code) ==> KeepsStatus(after, id, r))
            && (KeepsSchedule(db, id, r) && !SetsSchedule(command, id, r.code) ==> KeepsSchedule(after, id, r))
  {
    hide RequestError, Operational, Excluded, ScheduleConflicts, StatusConflicts, ClosureConflicts, ScheduleChanges,
      NewBooking, Advance, NewResource, HasActiveBooking, HasActiveBookingOn, HasClosureId, CodeTaken, PassesDateCheck,
      DayNumber, HasBooking;
  }

  lemma {:induction false} RunOnResource(db: Database, run: seq<Timed>, id: Id, r: Resource)
    ensures KeepsStatus(db, id, r) && (forall i :: 0 <= i < |run| ==> !SetsStatus(run[i].command, id, r.code)) ==>
              KeepsStatus(Replay(db, run), id, r)
    ensures KeepsSchedule(db, id, r) && (forall i :: 0 <= i < |run| ==> !SetsSchedule(run[i].command, id, r.code)) ==>
              KeepsSchedule(Replay(db, run), id, r)
    decreases run
  {
    hide Execute, SetsStatus, SetsSchedule, KeepsStatus, KeepsSchedule;
    if run != [] {
      StepOnResource(db, run[0].command, run[0].now, id, r);
      RunOnResource(Execute(db, run[0].command, run[0].now).db, run[1..], id, r);
      assert forall i :: 0 <= i < |run| - 1 ==> run[1..][i] == run[i + 1];
    }
  }

  /** Out of service, and until something sets its status again, nothing of a resource can be booked. */
  lemma OutOfServiceStays(db: Database, id: Id, status: ResourceStatus, now: int, run: seq<Timed>,
                          requesterId: Id, request: BookingRequest, newId: Id, later: int)
    requires id in db.resources && status != Active && ExecuteUpdateStatus(db, id, status, now).failure.None?
    requires forall i :: 0 <= i < |run| ==> !SetsStatus(run[i].command, id, db.resources[id].code)
    requires request.resourceId == id
    ensures !CreateSucceeds(Replay(ExecuteUpdateStatus(db, id, status, now).db, run), requesterId, request, newId,
                            later)
  {
    hide DayNumber, PassesDateCheck, Excluded, StatusConflicts, Replay, InSchedule;
    var after := ExecuteUpdateStatus(db, id, status, now).db;
    RunOnResource(after, run, id, after.resources[id]);
  }

  /** Taking a resource out of service stops bookings, and putting it back at once restores the tables. */
  lemma StatusRoundTrip(db: Database, id: Id, status: ResourceStatus, now: int,
                        requesterId: Id, request: BookingRequest, newId: Id, later: int)
    requires id in db.resources && db.resources[id].status == Active && status != Active
    requires ExecuteUpdateStatus(db, id, status, now).failure.None? && request.resourceId == id
    ensures var out := ExecuteUpdateStatus(db, id, status, now);
            !CreateSucceeds(out.db, requesterId, request, newId, later)
            && ExecuteUpdateStatus(out.db, id, Active, later) == Outcome(db, None, [ResourceChanged(id)])
  {
    hide DayNumber, PassesDateCheck, Excluded, StatusConflicts;
    var out := ExecuteUpdateStatus(db, id, status, now);
    assert out.db.resources[id := db.resources[id]] == db.resources;
    OutOfServiceStays(db, id, status, now, [], requesterId, request, newId, later);
  }

  /**
   * After an update, and until something writes the schedule again, bookings
   * must fit what it names and, where it names nothing, what was there before.
   */
  lemma UpdatedScheduleRules(db: Database, id: Id, change: ResourceChange, now: int, run: seq<Timed>,
                             requesterId: Id, request: BookingRequest, newId: Id, later: int)
    requires id in db.resources && ExecuteUpdateResource(db, id, change, now).failure.None? && request.resourceId == id
    requires forall i :: 0 <= i < |run| ==> !SetsSchedule(run[i].command, id, db.resources[id].code)
    requires CreateSucceeds(Replay(ExecuteUpdateResource(db, id, change, now).db, run), requesterId, request, newId,
                            later)
    ensures request.startHour >= if change.opensAt.Some? then change.opensAt.value else db.resources[id].opensAt
    ensures request.endHour <= if change.closesAt.Some? then change.closesAt.value else db.resources[id].closesAt
    ensures WeekdayOf(DayNumber(request.date))
         in if change.operatingDays.Some? then change.operatingDays.value else db.resources[id].operatingDays
  {
    hide DayNumber, PassesDateCheck, Excluded, ScheduleConflicts, ScheduleChanges, WeekdayOf, Replay;
    var after := ExecuteUpdateResource(db, id, change, now).db;
    RunOnResource(after, run, id, after.resources[id]);
  }

  /** The hours shown for a day are exactly the hours that could be booked one by one. */
  lemma SlotsAreBookableHours(db: Database, id: Id, date: WrittenDate, h: Hour, requesterId: Id, newId: Id, now: int)
    requires HoursOrdered(db) && ResourcesSound(db) && newId !in db.bookings && id in db.resources && h < 23
             && PassesDateCheck(date)
    ensures SlotAt(h) in View(db, id, DayNumber(date), now).value.slots
       <==> CreateSucceeds(db, requesterId, BookingRequest(id, date, h, h + 1), newId, now)
  {
    hide HoursOrdered, ResourcesSound, DayNumber, PassesDateCheck, CreateSucceeds, DiscoverLists, Resolve;
    FourWayAgreement(db, requesterId, BookingRequest(id, date, h, h + 1), newId, now);
    ShownHourResolves(db, id, DayNumber(date), h, now);
  }

  /** An hour is shown exactly when its one-hour interval resolves. */
  lemma ShownHourResolves(db: Database, id: Id, day: int, h: Hour, now: int)
    requires id in db.resources && h < 23
    ensures var a := View(db, id, day, now).value;
            SlotAt(h) in a.slots <==> Resolve(a, Some(h), Some(h + 1)).isSlotAvailable
  {
    hide ResponseFor, Resolve;
    var r := db.resources[id];
    var closure := if db.Closed(id, day) then Some(db.closures[(id, day)]) else None;
    var a := ResponseFor(r, day, closure, db.BusyOn(id, day), now);
    ResponseSlots(r, day, closure, db.BusyOn(id, day), now);
    OpeningHours(r, day, closure, db.BusyOn(id, day), now);
    ResolvesByHours(a, h, h + 1);
    assert CoversAll(a.slots, h, h + 1) <==> SlotAt(h) in a.slots;
  }

  lemma OpeningHours(r: Resource, day: int, closure: Option<Closure>, busy: set<Interval>, now: int)
    ensures var a := ResponseFor(r, day, closure, busy, now); a.opensAt == r.opensAt && a.closesAt == r.closesAt
  {
  }

  /** The response for a day names the first reason against it, and a closure's reason only then. */
  lemma BlockedReasonPrecedence(db: Database, id: Id, day: int, now: int)
    requires id in db.resources
    ensures var reason, r := View(db, id, day, now).value.blockedReason, db.resources[id];
            (reason.None? <==> r.status == Active && !db.Closed(id, day) && WeekdayOf(day) in r.operatingDays)
            && (reason == Some(InMaintenance) <==> r.status == Maintenance)
            && (reason == Some(NotActive) <==> r.status == Inactive)
            && (reason.Some? && reason.value.ClosedForDay? <==> r.status == Active && db.Closed(id, day))
            && (reason.Some? && reason.value.ClosedForDay? ==> reason.value.reason == db.closures[(id, day)].reason)
            && (reason == Some(ClosedWeekday)
                <==> r.status == Active && !db.Closed(id, day) && WeekdayOf(day) !in r.operatingDays)
  {
  }

  /**
   * The reason shown for a day is what stands against booking it: for an
   * interval in the opening hours that is still to come and that nobody has
   * booked, one is shown exactly when `create` refuses.
   */
  lemma ReasonMeansRefusal(db: Database, requesterId: Id, request: BookingRequest, newId: Id, now: int)
    requires HoursOrdered(db) && newId !in db.bookings && request.resourceId in db.resources
    requires PassesDateCheck(request.date) && request.startHour < request.endHour
    requires db.resources[request.resourceId].opensAt <= request.startHour
    requires request.endHour <= db.resources[request.resourceId].closesAt
    requires Undisturbed(db, request.resourceId, DayNumber(request.date), request.startHour, request.endHour, now)
    ensures View(db, request.resourceId, DayNumber(request.date), now).value.blockedReason.Some?
       <==> !CreateSucceeds(db, requesterId, request, newId, now)
  {
    hide DayNumber, PassesDateCheck, Undisturbed, HoursOrdered, CreateSucceeds, View, WeekdayOf;
    CreateIsBookable(db, requesterId, request, newId, now);
    BlockedReasonPrecedence(db, request.resourceId, DayNumber(request.date), now);
  }
}
