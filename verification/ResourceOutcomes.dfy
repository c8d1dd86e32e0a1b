/**
 * What the resource service and the catalog import answer and write, case by
 * case: which bookings stand in the way of a change, in terms of their status,
 * hours and end, and the exact row and event of each success.
 */
module ResourceOutcomes {
  import opened Agreement
  import opened Bookings
  import opened Calendar
  import opened Campus
  import opened CampusClock
  import opened CampusInvariants
  import opened CampusRuns
  import opened Resources
  import opened Wrappers

  // ------------------------------------------------------- bookings in the way

  /** A booking before check-in that has not ended and does not lie in the days and hours of `r`. */
  predicate LeftOut(b: Booking, r: Resource, now: int) {
    b.status in {Pending, Confirmed} && now < HourMs(b.date, b.endHour)
    && (WeekdayOf(b.date) !in r.operatingDays || b.startHour < r.opensAt || r.closesAt < b.endHour)
  }

  /** A booking before check-in that has not ended, or one whose visitor is still in. */
  predicate StillExpected(b: Booking, now: int) {
    (b.status in {Pending, Confirmed} && now < HourMs(b.date, b.endHour)) || b.status == CheckedIn
  }

  /** A booking on the day that holds its slot and has not ended. */
  predicate HeldOn(b: Booking, day: int, now: int) {
    b.status in {Pending, Confirmed, CheckedIn} && b.date == day && now < HourMs(b.date, b.endHour)
  }

  ghost function OnResource(db: Database, id: Id, stands: Booking -> bool): set<Id> {
    set b | b in db.bookings && db.bookings[b].resourceId == id && stands(db.bookings[b])
  }

  lemma RowsInTheWay(b: Booking, r: Resource, day: int, now: int)
    requires TimeOrder(b)
    ensures OutsideSchedule(b, r, now) <==> LeftOut(b, r, now)
    ensures HoldsStatus(b, now) <==> StillExpected(b, now)
    ensures HoldsDay(b, day, now) <==> HeldOn(b, day, now)
  {
    EndedExactly(b, now);
    hide EndsAfterNow, WeekdayOf, HourMs;
  }

  lemma ConflictsExactly(db: Database, id: Id, r: Resource, day: int, now: int)
    requires HoursOrdered(db)
    ensures ScheduleConflicts(db, id, r, now) == OnResource(db, id, b => LeftOut(b, r, now))
    ensures StatusConflicts(db, id, now) == OnResource(db, id, b => StillExpected(b, now))
    ensures ClosureConflicts(db, id, day, now) == OnResource(db, id, b => HeldOn(b, day, now))
  {
    hide OutsideSchedule, HoldsStatus, HoldsDay, LeftOut, StillExpected, HeldOn, TimeOrder;
    forall b | b in db.bookings
      ensures OutsideSchedule(db.bookings[b], r, now) <==> LeftOut(db.bookings[b], r, now)
      ensures HoldsStatus(db.bookings[b], now) <==> StillExpected(db.bookings[b], now)
      ensures HoldsDay(db.bookings[b], day, now) <==> HeldOn(db.bookings[b], day, now)
    {
      RowsInTheWay(db.bookings[b], r, day, now);
    }
  }

  // ----------------------------------------------------------------- closures

  /** A date can be closed when it is one, the resource is there, no live booking has it and it is not closed yet. */
  lemma CreateClosureOutcome(db: Database, id: Id, date: WrittenDate, closure: Closure, now: int)
    requires HoursOrdered(db)
    ensures var out, day := ExecuteCreateClosure(db, id, date, closure, now), DayNumber(date);
            var genuine := 1 <= date.month <= 12 && 1 <= date.day <= DaysInMonth(date.year, date.month)
              && date.year >= 100;
            var held := OnResource(db, id, b => HeldOn(b, day, now));
            (out.failure == Some(InvalidAvailabilityDate) <==> !genuine)
            && (out.failure == Some(UnknownResource) <==> genuine && id !in db.resources)
            && (forall n :: out.failure == Some(HasActiveBookings(n)) <==>
                  genuine && id in db.resources && held != {} && n == |held|)
            && (out.failure == Some(ClosureAlreadyExists) <==>
                  genuine && id in db.resources && held == {} && (id, day) in db.closures)
            && (out.failure == Some(DuplicateKey) <==>
                  genuine && id in db.resources && held == {} && (id, day) !in db.closures
                  && exists k :: k in db.closures && db.closures[k].id == closure.id)
            && (out.failure == None <==>
                  genuine && id in db.resources && held == {} && (id, day) !in db.closures
                  && forall k :: k in db.closures ==> db.closures[k].id != closure.id)
            && (if out.failure == None
                then out.db == Database(db.resources, db.closures[(id, day) := closure], db.bookings)
                     && out.events == [AvailabilityChanged(id, day)]
                else out.db == db && out.events == [])
  {
    DateCheckExact(date);
    ConflictsExactly(db, id, Resource("", Active, {}, 0, 0, false, 0), DayNumber(date), now);
    hide PassesDateCheck, DayNumber, DaysInMonth, ClosureConflicts, ScheduleConflicts, StatusConflicts, OnResource,
      HoursOrdered;
  }

  /**
   * No booking of the resource on the date holds its slot and ends after now: the closing of a date
   * in one sentence.
   */
  lemma ClosesExactly(db: Database, id: Id, date: WrittenDate, closure: Closure, now: int)
    requires HoursOrdered(db)
    ensures ExecuteCreateClosure(db, id, date, closure, now).failure == None
       <==> PassesDateCheck(date) && id in db.resources && (id, DayNumber(date)) !in db.closures
            && (forall k :: k in db.closures ==> db.closures[k].id != closure.id)
            && forall b :: b in db.bookings && db.bookings[b].resourceId == id
                           && db.bookings[b].date == DayNumber(date) && db.bookings[b].Blocking() ==>
                 db.bookings[b].EndMs() <= now
  {
    CreateClosureOutcome(db, id, date, closure, now);
    DateCheckExact(date);
    hide PassesDateCheck, DayNumber, DaysInMonth, ExecuteCreateClosure, HoursOrdered, HourMs;
    var held := OnResource(db, id, b => HeldOn(b, DayNumber(date), now));
    if held == {} {
      forall b | b in db.bookings && db.bookings[b].resourceId == id && db.bookings[b].date == DayNumber(date)
                 && db.bookings[b].Blocking()
        ensures db.bookings[b].EndMs() <= now
      {
        assert b !in held;
      }
    } else {
      var b :| b in held;
    }
  }

  /** The closure with the id is that of the resource on the day. */
  predicate NamesClosure(db: Database, id: Id, day: int, closureId: Id) {
    (id, day) in db.closures && db.closures[(id, day)].id == closureId
  }

  /** A closure is deleted by its id on its resource, and no other closure, row or booking is touched. */
  lemma DeleteClosureOutcome(db: Database, id: Id, closureId: Id)
    requires ClosureIdsUnique(db)
    ensures var out := ExecuteDeleteClosure(db, id, closureId);
            (out.failure == Some(UnknownResource) <==> id !in db.resources)
            && (out.failure == Some(ClosureNotFound) <==>
                  id in db.resources && !exists day :: NamesClosure(db, id, day, closureId))
            && (out.failure != None ==> out == Outcome(db, out.failure, []))
            && forall day :: id in db.resources && NamesClosure(db, id, day, closureId) ==>
              out == Outcome(Database(db.resources, db.closures - {(id, day)}, db.bookings), None,
                             [AvailabilityChanged(id, day)])
  {
    forall day | id in db.resources && NamesClosure(db, id, day, closureId)
      ensures ExecuteDeleteClosure(db, id, closureId)
           == Outcome(Database(db.resources, db.closures - {(id, day)}, db.bookings), None,
                      [AvailabilityChanged(id, day)])
    {
      assert IsClosure(db, id, closureId, (id, day));
      assert forall k :: IsClosure(db, id, closureId, k) ==> k == (id, day);
      assert (map k | k in db.closures && !IsClosure(db, id, closureId, k) :: db.closures[k])
             == db.closures - {(id, day)};
    }
    forall key: (Id, int) | IsClosure(db, id, closureId, key)
      ensures exists day :: NamesClosure(db, id, day, closureId)
    {
      assert key == (id, key.1);
      assert NamesClosure(db, id, key.1, closureId);
    }
  }

  // ----------------------------------------------------------------- resources

  /** A new resource opens Monday to Saturday from 8 to 18 without approval, where nothing else is said. */
  lemma CreateResourceOutcome(db: Database, newId: Id, draft: ResourceDraft, now: int)
    ensures var out := ExecuteCreateResource(db, newId, draft, now);
            var opens := if draft.opensAt.Some? then draft.opensAt.value else 8;
            var closes := if draft.closesAt.Some? then draft.closesAt.value else 18;
            var days: set<int> := if draft.operatingDays.Some? then draft.operatingDays.value else {1, 2, 3, 4, 5, 6};
            var taken := exists i :: i in db.resources && db.resources[i].code == draft.code;
            (out.failure == Some(InvalidOperatingHours) <==> closes <= opens)
            && (out.failure == Some(ResourceCodeAlreadyExists) <==> opens < closes && taken)
            && (out.failure == Some(DuplicateKey) <==> opens < closes && !taken && newId in db.resources)
            && (out.failure == None <==> opens < closes && !taken && newId !in db.resources)
            && (if out.failure == None
                then var row := Resource(draft.code, Active, days, opens, closes,
                                         draft.requiresApproval == Some(true), now);
                     out.db == Database(db.resources[newId := row], db.closures, db.bookings)
                else out.db == db)
            && out.events == []
  {
    hide CodeTaken;
    TakenCode(db, draft.code);
  }

  lemma TakenCode(db: Database, code: string)
    ensures CodeTaken(db, code) <==> exists i :: i in db.resources && db.resources[i].code == code
  {
  }

  /**
   * The columns an update leaves: those it names as named, all others, with code, status and
   * creation, as they were.
   */
  predicate Rewritten(before: Resource, change: ResourceChange, after: Resource) {
    after.code == before.code && after.status == before.status && after.createdAt == before.createdAt
    && (match change.operatingDays
        case Some(days) => after.operatingDays == days
        case None => after.operatingDays == before.operatingDays)
    && (match change.opensAt
        case Some(hour) => after.opensAt == hour
        case None => after.opensAt == before.opensAt)
    && (match change.closesAt
        case Some(hour) => after.closesAt == hour
        case None => after.closesAt == before.closesAt)
    && (match change.requiresApproval
        case Some(flag) => after.requiresApproval == flag
        case None => after.requiresApproval == before.requiresApproval)
  }

  lemma ChangedExactly(r: Resource, change: ResourceChange, after: Resource)
    ensures Rewritten(r, change, after) <==> after == Changed(r, change)
  {
  }

  /** The days or the hours are other ones. */
  predicate OtherSchedule(a: Resource, b: Resource) {
    a.operatingDays != b.operatingDays || a.opensAt != b.opensAt || a.closesAt != b.closesAt
  }

  /** An update fails on hours that do not follow each other, and on bookings that a new schedule would leave out. */
  lemma UpdateOutcome(db: Database, id: Id, change: ResourceChange, now: int, after: Resource)
    requires HoursOrdered(db) && (id in db.resources ==> Rewritten(db.resources[id], change, after))
    ensures var out := ExecuteUpdateResource(db, id, change, now);
            var left := OnResource(db, id, b => LeftOut(b, after, now));
            (out.failure == Some(UnknownResource) <==> id !in db.resources)
            && (out.failure == Some(InvalidOperatingHours) <==> id in db.resources && after.closesAt <= after.opensAt)
            && (forall n :: out.failure == Some(HasActiveBookings(n)) <==>
                  id in db.resources && after.opensAt < after.closesAt && OtherSchedule(db.resources[id], after)
                  && left != {} && n == |left|)
            && (out.failure == None <==>
                  id in db.resources && after.opensAt < after.closesAt
                  && (OtherSchedule(db.resources[id], after) ==> left == {}))
            && (if out.failure == None
                then out.db == Database(db.resources[id := after], db.closures, db.bookings)
                     && out.events == [ResourceChanged(id)]
                else out.db == db && out.events == [])
  {
    ConflictsExactly(db, id, after, 0, now);
    if id in db.resources {
      ChangedExactly(db.resources[id], change, after);
    }
    hide ClosureConflicts, ScheduleConflicts, StatusConflicts, OnResource, HoursOrdered, Changed, Rewritten;
  }

  /** Any status can be set, but one that is not ACTIVE only when nobody is expected or in. */
  lemma UpdateStatusOutcome(db: Database, id: Id, status: ResourceStatus, now: int)
    requires HoursOrdered(db)
    ensures var out := ExecuteUpdateStatus(db, id, status, now);
            var expected := OnResource(db, id, b => StillExpected(b, now));
            (out.failure == Some(UnknownResource) <==> id !in db.resources)
            && (forall n :: out.failure == Some(HasActiveBookings(n)) <==>
                  id in db.resources && status != Active && expected != {} && n == |expected|)
            && (out.failure == None <==> id in db.resources && (status == Active || expected == {}))
            && (if out.failure == None
                then var r := db.resources[id];
                     var row := Resource(r.code, status, r.operatingDays, r.opensAt, r.closesAt, r.requiresApproval,
                                         r.createdAt);
                     out.db == Database(db.resources[id := row], db.closures, db.bookings)
                     && out.events == [ResourceChanged(id)]
                else out.db == db && out.events == [])
  {
    ConflictsExactly(db, id, Resource("", Active, {}, 0, 0, false, 0), 0, now);
    hide ClosureConflicts, ScheduleConflicts, StatusConflicts, OnResource, HoursOrdered;
  }

  // ------------------------------------------------------------------ approval

  /** The command may write whether the resource requires approval, or insert it. */
  predicate SetsApproval(command: Command, id: Id, code: string) {
    (command.UpdateResource? && command.resourceId == id && command.change.requiresApproval.Some?)
    || (command.CreateResource? && command.newId == id)
    || (command.ImportResource? && (command.row.code == code || command.newId == id))
  }

  ghost predicate KeepsApproval(db: Database, id: Id, r: Resource) {
    id in db.resources ==> db.resources[id].code == r.code && db.resources[id].requiresApproval == r.requiresApproval
  }

  lemma StepOnApproval(db: Database, command: Command, now: int, id: Id, r: Resource)
    requires KeepsApproval(db, id, r) && !SetsApproval(command, id, r.code)
    ensures KeepsApproval(Execute(db, command, now).db, id, r)
  {
    hide RequestError, Operational, Excluded, ScheduleConflicts, StatusConflicts, ClosureConflicts, ScheduleChanges,
      NewBooking, Advance, NewResource, HasActiveBooking, HasActiveBookingOn, HasClosureId, CodeTaken, PassesDateCheck,
      DayNumber, HasBooking;
  }

  lemma {:induction false} RunOnApproval(db: Database, run: seq<Timed>, id: Id, r: Resource)
    requires KeepsApproval(db, id, r) && forall i :: 0 <= i < |run| ==> !SetsApproval(run[i].command, id, r.code)
    ensures KeepsApproval(Replay(db, run), id, r)
    decreases run
  {
    hide Execute, SetsApproval, KeepsApproval;
    if run != [] {
      StepOnApproval(db, run[0].command, run[0].now, id, r);
      RunOnApproval(Execute(db, run[0].command, run[0].now).db, run[1..], id, r);
    }
  }

  /**
   * After an update, and until something writes the flag again, a new booking
   * waits for review exactly when the update asked for approval or, where it
   * said nothing, the resource already did.
   */
  lemma UpdatedApprovalRules(db: Database, id: Id, change: ResourceChange, now: int, run: seq<Timed>,
                             requesterId: Id, request: BookingRequest, newId: Id, later: int)
    requires id in db.resources && ExecuteUpdateResource(db, id, change, now).failure == None
             && request.resourceId == id
    requires forall i :: 0 <= i < |run| ==> !SetsApproval(run[i].command, id, db.resources[id].code)
    requires var after := Replay(ExecuteUpdateResource(db, id, change, now).db, run);
             ExecuteCreate(after, requesterId, request, newId, later).failure == None
    ensures var after := Replay(ExecuteUpdateResource(db, id, change, now).db, run);
            var booked := ExecuteCreate(after, requesterId, request, newId, later).db;
            newId in booked.bookings
            && booked.bookings[newId].status
            == if change.requiresApproval == Some(true) then Pending
               else if change.requiresApproval == Some(false) then Confirmed
               else if db.resources[id].requiresApproval then Pending else Confirmed
  {
    hide DayNumber, RequestError, Operational, Excluded, ScheduleConflicts, ScheduleChanges, Replay, SetsApproval;
    var updated := ExecuteUpdateResource(db, id, change, now).db;
    RunOnApproval(updated, run, id, updated.resources[id]);
  }

  // -------------------------------------------------------------------- import

  /** The upsert writes the catalog's columns over a resource that nobody has booked, or inserts it; creation stays. */
  lemma ImportResourceOutcome(db: Database, newId: Id, row: ImportRow, now: int, id: Id)
    requires CodesUnique(db)
    ensures var out := ExecuteImportResource(db, newId, row, now);
            out.events == [] && out.db.closures == db.closures && out.db.bookings == db.bookings
            && (id in db.resources && db.resources[id].code == row.code ==>
                  out.failure == None
                  && var booked := exists b :: b in db.bookings && db.bookings[b].resourceId == id
                                     && db.bookings[b].status in {Pending, Confirmed, CheckedIn};
                     var written := Resource(row.code, row.status, row.operatingDays, row.opensAt, row.closesAt,
                                             row.requiresApproval, db.resources[id].createdAt);
                     out.db.resources == if booked then db.resources else db.resources[id := written])
            && ((forall i :: i in db.resources ==> db.resources[i].code != row.code) ==>
                  var written := Resource(row.code, row.status, row.operatingDays, row.opensAt, row.closesAt,
                                          row.requiresApproval, now);
                  if newId in db.resources then out.failure == Some(DuplicateKey) && out.db == db
                  else out.failure == None && out.db.resources == db.resources[newId := written])
  {
    HolderUnique(db, row.code, id);
    ActiveExactly(db, id);
    hide HasActiveBooking, CodesUnique;
    if Holder(db, row.code).Some? {
      assert HasCode(db, Holder(db, row.code).value, row.code);
    }
  }

  lemma ActiveExactly(db: Database, id: Id)
    ensures HasActiveBooking(db, id)
       <==> exists b :: b in db.bookings && db.bookings[b].resourceId == id
              && db.bookings[b].status in {Pending, Confirmed, CheckedIn}
  {
    assert forall b :: b in db.bookings ==>
        (db.bookings[b].Blocking() <==> db.bookings[b].status in {Pending, Confirmed, CheckedIn});
  }

  /** The guarded insert closes the date unless it is closed, or a booking that day holds its slot, ended or not. */
  lemma ImportClosureOutcome(db: Database, id: Id, day: int, closure: Closure)
    requires id in db.resources && forall k :: k in db.closures ==> db.closures[k].id != closure.id
    ensures var held := exists b :: b in db.bookings && db.bookings[b].resourceId == id && db.bookings[b].date == day
                          && db.bookings[b].status in {Pending, Confirmed, CheckedIn};
            ExecuteImportClosure(db, id, day, closure)
            == if held || (id, day) in db.closures then Outcome(db, None, [])
               else Outcome(Database(db.resources, db.closures[(id, day) := closure], db.bookings), None, [])
  {
    assert forall b :: b in db.bookings ==>
        (db.bookings[b].Blocking() <==> db.bookings[b].status in {Pending, Confirmed, CheckedIn});
    assert HasActiveBookingOn(db, id, day) <==>
        exists b :: b in db.bookings && db.bookings[b].resourceId == id && db.bookings[b].date == day
          && db.bookings[b].status in {Pending, Confirmed, CheckedIn} by {
      if b :| b in db.bookings && db.bookings[b].resourceId == id && db.bookings[b].date == day
              && db.bookings[b].status in {Pending, Confirmed, CheckedIn} {
        assert db.Blocks(b, id, day);
      }
    }
  }

  /** Cleaning deletes a resource exactly when its code is listed and no booking names it, and its closures with it. */
  lemma CleanOutcome(db: Database, codes: set<string>, now: int)
    ensures var out := Execute(db, CleanCatalog(codes), now);
            out.failure == None && out.events == [] && out.db.bookings == db.bookings
            && (forall id :: id in out.db.resources <==>
                  id in db.resources
                  && (db.resources[id].code in codes ==>
                        exists b :: b in db.bookings && db.bookings[b].resourceId == id))
            && (forall id :: id in out.db.resources ==> out.db.resources[id] == db.resources[id])
            && (forall k :: k in out.db.closures <==>
                  k in db.closures && (k.0 in db.resources ==> k.0 in out.db.resources))
            && (forall k :: k in out.db.closures ==> out.db.closures[k] == db.closures[k])
  {
  }
}
