/** What every transaction keeps, what it announces, and how the views agree. */
module CampusInvariants {
  import opened Availability
  import opened Bookings
  import opened Calendar
  import opened Campus
  import opened CampusClock
  import opened Resources
  import opened Wrappers

  // -------------------------------------------------------------- invariant

  /** The booking either no longer holds its slot, or has ended, or can still take place. */
  predicate Tenable(r: Resource, closed: bool, b: Booking, now: int) {
    b.Blocking() && now < b.EndMs() ==>
      r.status == Active && !closed && (b.Reviewable() ==> InSchedule(r, b.date, b.startHour, b.endHour))
  }

  /**
   * A booking that holds its slot and has not ended is on an ACTIVE resource
   * and an open date; before check-in it also lies inside the schedule.
   */
  predicate NotStranded(db: Database, b: Booking, now: int) {
    b.resourceId in db.resources && Tenable(db.resources[b.resourceId], db.Closed(b.resourceId, b.date), b, now)
  }

  ghost predicate ResourcesSound(db: Database) {
    forall id :: id in db.resources ==> ResourceChecks(db.resources[id])
  }

  ghost predicate RowsSound(db: Database, now: int) {
    forall id :: id in db.bookings ==> SoundRow(db.bookings[id], now)
  }

  ghost predicate NoneStranded(db: Database, now: int) {
    forall id :: id in db.bookings ==> NotStranded(db, db.bookings[id], now)
  }

  /** The exclusion constraint: no two rows conflict. */
  ghost predicate NoDoubleBooking(db: Database) {
    forall i, j :: i in db.bookings && j in db.bookings && i != j ==> !Conflict(db.bookings[i], db.bookings[j])
  }

  /** A checked-in booking is on an ACTIVE resource, even past its end. */
  ghost predicate CheckedInOnActive(db: Database) {
    forall id :: id in db.bookings && db.bookings[id].status == CheckedIn ==>
      db.bookings[id].resourceId in db.resources && db.resources[db.bookings[id].resourceId].status == Active
  }

  ghost predicate ClosureIdsUnique(db: Database) {
    forall j, k :: j in db.closures && k in db.closures && db.closures[j].id == db.closures[k].id ==> j == k
  }

  ghost predicate Sound(db: Database, now: int) {
    ResourcesSound(db) && CodesUnique(db) && RowsSound(db, now) && NoneStranded(db, now) && NoDoubleBooking(db)
    && CheckedInOnActive(db) && ClosureIdsUnique(db)
  }

  lemma EndedExactly(b: Booking, now: int)
    requires TimeOrder(b)
    ensures EndsAfterNow(b.date, b.endHour, now) <==> now < b.EndMs()
  {
  }

  /** Time alone breaks nothing. */
  lemma SoundLater(db: Database, now: int, later: int)
    requires Sound(db, now) && now <= later
    ensures Sound(db, later)
  {
    forall id | id in db.bookings
      ensures SoundRow(db.bookings[id], later) && NotStranded(db, db.bookings[id], later)
    {
      RowLater(db.bookings[id], now, later);
      assert NotStranded(db, db.bookings[id], now);
    }
    hide SoundRow, Conflict, ResourceChecks;
  }

  lemma RowLater(b: Booking, now: int, later: int)
    requires SoundRow(b, now) && now <= later
    ensures SoundRow(b, later)
  {
    hide SatisfiesChecks, WireDay;
  }

  /** Writing one row that fits the tables. */
  lemma PutBooking(db: Database, id: Id, row: Booking, now: int)
    requires Sound(db, now) && SoundRow(row, now) && NotStranded(db, row, now)
    requires row.status == CheckedIn ==> db.resources[row.resourceId].status == Active
    requires forall other :: other in db.bookings && other != id ==>
               !Conflict(db.bookings[other], row) && !Conflict(row, db.bookings[other])
    ensures Sound(db.(bookings := db.bookings[id := row]), now)
  {
    hide SoundRow, Conflict, Tenable, ResourceChecks;
  }

  lemma NewBookingSound(r: Resource, requesterId: Id, request: BookingRequest, now: int)
    requires ResourceChecks(r) && RequestError(request, now).None?
    requires Operational(r, DayNumber(request.date), request.startHour, request.endHour)
    ensures var b := NewBooking(r, requesterId, request, now); SoundRow(b, now) && Tenable(r, false, b, now)
  {
    hide DayNumber, PassesDateCheck, WeekdayOf;
    CheckedDateIsWire(request.date);
  }

  /** A date text that passes the date check is of a year that prints back. */
  lemma CheckedDateIsWire(date: WrittenDate)
    requires PassesDateCheck(date)
    ensures WireDay(DayNumber(date))
  {
    DateCheckExact(date);
    DayNumberRoundTrip(date);
  }

  lemma ConflictSymmetric(a: Booking, b: Booking)
    ensures Conflict(a, b) <==> Conflict(b, a)
  {
  }

  lemma CreateKeepsSound(db: Database, requesterId: Id, request: BookingRequest, newId: Id, now: int)
    requires Sound(db, now)
    ensures Sound(ExecuteCreate(db, requesterId, request, newId, now).db, now)
  {
    hide Sound, RequestError, Operational, Tenable, SoundRow, DayNumber, Conflict;
    if ExecuteCreate(db, requesterId, request, newId, now).failure.None? {
      NewRowFits(db, requesterId, request, newId, now);
      PutBooking(db, newId, NewBooking(db.resources[request.resourceId], requesterId, request, now), now);
    }
  }

  /** What `create` has found when it succeeds. */
  lemma CreateChecked(db: Database, requesterId: Id, request: BookingRequest, newId: Id, now: int)
    requires ExecuteCreate(db, requesterId, request, newId, now).failure.None?
    ensures request.resourceId in db.resources && RequestError(request, now).None?
    ensures var r := db.resources[request.resourceId];
            Operational(r, DayNumber(request.date), request.startHour, request.endHour)
            && !db.Closed(request.resourceId, DayNumber(request.date))
            && !Excluded(db, NewBooking(r, requesterId, request, now))
  {
    hide RequestError, Operational, DayNumber, NewBooking, Excluded;
  }

  lemma ResourceFacts(db: Database, id: Id, now: int)
    requires Sound(db, now) && id in db.resources
    ensures ResourceChecks(db.resources[id])
  {
  }

  /** The row that `create` inserts is sound, can take place and conflicts with nothing. */
  lemma NewRowFits(db: Database, requesterId: Id, request: BookingRequest, newId: Id, now: int)
    requires Sound(db, now) && ExecuteCreate(db, requesterId, request, newId, now).failure.None?
    ensures var row := NewBooking(db.resources[request.resourceId], requesterId, request, now);
            SoundRow(row, now) && NotStranded(db, row, now) && row.status != CheckedIn
            && forall other :: other in db.bookings ==>
              !Conflict(db.bookings[other], row) && !Conflict(row, db.bookings[other])
  {
    CreateChecked(db, requesterId, request, newId, now);
    ResourceFacts(db, request.resourceId, now);
    hide Sound, ExecuteCreate, RequestError, Operational, Tenable, SoundRow, DayNumber, ResourceChecks;
    var r := db.resources[request.resourceId];
    NewBookingSound(r, requesterId, request, now);
    var row := NewBooking(r, requesterId, request, now);
    forall other | other in db.bookings
      ensures !Conflict(db.bookings[other], row) && !Conflict(row, db.bookings[other])
    {
      ConflictSymmetric(db.bookings[other], row);
    }
  }

  /** A row moved on conflicts with no row the old one was apart from. */
  lemma ReleasedStaysApart(before: Booking, after: Booking, other: Booking)
    requires Releases(before, after)
    ensures Conflict(after, other) ==> Conflict(before, other)
    ensures Conflict(other, after) ==> Conflict(other, before)
  {
  }

  lemma ReleasedStaysTenable(r: Resource, closed: bool, before: Booking, after: Booking, now: int)
    requires Releases(before, after) && Tenable(r, closed, before, now)
    ensures Tenable(r, closed, after, now)
  {
  }

  lemma CheckInNeedsOpenWindow(before: Booking, command: Lifecycle, now: int)
    ensures var r := Advance(before, command, now);
            r.Ok? && r.value.status == CheckedIn ==> before.status == Confirmed && now < before.EndMs()
  {
  }

  lemma ProgressKeepsSound(db: Database, bookingId: Id, command: Lifecycle, now: int)
    requires Sound(db, now)
    ensures Sound(ExecuteProgress(db, bookingId, command, now).db, now)
  {
    if bookingId in db.bookings && Advance(db.bookings[bookingId], command, now).Ok? {
      var before := db.bookings[bookingId];
      var after := Advance(before, command, now).value;
      AdvanceKeepsChecks(before, command, now);
      AdvanceReleases(before, command, now);
      CheckInNeedsOpenWindow(before, command, now);
      assert NotStranded(db, before, now);
      ReleasedStaysTenable(db.resources[before.resourceId], db.Closed(before.resourceId, before.date), before, after,
                           now);
      forall other | other in db.bookings && other != bookingId
        ensures !Conflict(db.bookings[other], after) && !Conflict(after, db.bookings[other])
      {
        ReleasedStaysApart(before, after, db.bookings[other]);
      }
      hide Advance, SoundRow, Conflict;
      PutBooking(db, bookingId, after, now);
    }
  }

  /** Rewriting a resource row under which no live booking is stranded, checked-in ones included. */
  lemma RewriteResource(db: Database, id: Id, row: Resource, now: int)
    requires Sound(db, now) && id in db.resources && ResourceChecks(row) && row.code == db.resources[id].code
    requires forall b :: b in db.bookings && db.bookings[b].resourceId == id ==>
               Tenable(row, db.Closed(id, db.bookings[b].date), db.bookings[b], now)
               && (db.bookings[b].status == CheckedIn ==> row.status == Active)
    ensures Sound(db.(resources := db.resources[id := row]), now)
  {
    hide SoundRow, Conflict, Tenable, ResourceChecks;
    SoundParts(db, now);
    CodesStay(db, id, row);
    var after := db.(resources := db.resources[id := row]);
    forall b | b in db.bookings
      ensures NotStranded(after, db.bookings[b], now)
      ensures db.bookings[b].status == CheckedIn ==> after.resources[db.bookings[b].resourceId].status == Active
    {
      assert NotStranded(db, db.bookings[b], now);
    }
  }

  lemma CodesStay(db: Database, id: Id, row: Resource)
    requires CodesUnique(db) && id in db.resources && row.code == db.resources[id].code
    ensures CodesUnique(db.(resources := db.resources[id := row]))
  {
  }

  lemma RowFacts(db: Database, id: Id, now: int)
    requires Sound(db, now) && id in db.bookings
    ensures TimeOrder(db.bookings[id]) && NotStranded(db, db.bookings[id], now)
    ensures db.bookings[id].status == CheckedIn ==> db.resources[db.bookings[id].resourceId].status == Active
  {
    assert SoundRow(db.bookings[id], now);
  }

  lemma UpdateResourceKeepsSound(db: Database, resourceId: Id, change: ResourceChange, now: int)
    requires Sound(db, now)
    ensures Sound(ExecuteUpdateResource(db, resourceId, change, now).db, now)
  {
    if ExecuteUpdateResource(db, resourceId, change, now).failure.None? {
      var r := db.resources[resourceId];
      ResourceFacts(db, resourceId, now);
      var after := Changed(r, change);
      ChangedChecks(r, change);
      hide Sound, HourMs, WeekdayOf, EndsAfterNow, Tenable, Changed, ScheduleChanges, ScheduleConflicts, ResourceChecks;
      forall b | b in db.bookings && db.bookings[b].resourceId == resourceId
        ensures Tenable(after, db.Closed(resourceId, db.bookings[b].date), db.bookings[b], now)
        ensures db.bookings[b].status == CheckedIn ==> after.status == Active
      {
        UpdateSuitsBooking(db, resourceId, change, b, now);
      }
      RewriteResource(db, resourceId, after, now);
    }
  }

  lemma ChangedChecks(r: Resource, change: ResourceChange)
    requires ResourceChecks(r)
    ensures var after := Changed(r, change);
            after.code == r.code && after.status == r.status
              && (after.opensAt < after.closesAt ==> ResourceChecks(after))
  {
  }

  /** A booking of the resource can still take place after a change that found nothing in its way. */
  lemma UpdateSuitsBooking(db: Database, resourceId: Id, change: ResourceChange, id: Id, now: int)
    requires Sound(db, now) && id in db.bookings && db.bookings[id].resourceId == resourceId
             && resourceId in db.resources
    requires var r := db.resources[resourceId];
             ScheduleChanges(r, change) ==> ScheduleConflicts(db, resourceId, Changed(r, change), now) == {}
    ensures var after := Changed(db.resources[resourceId], change);
            Tenable(after, db.Closed(resourceId, db.bookings[id].date), db.bookings[id], now)
            && (db.bookings[id].status == CheckedIn ==> after.status == Active)
  {
    RowFacts(db, id, now);
    EndedExactly(db.bookings[id], now);
    hide Sound, HourMs, WeekdayOf, EndsAfterNow;
    var r := db.resources[resourceId];
    assert ScheduleChanges(r, change) ==> id !in ScheduleConflicts(db, resourceId, Changed(r, change), now);
  }

  lemma UpdateStatusKeepsSound(db: Database, resourceId: Id, status: ResourceStatus, now: int)
    requires Sound(db, now)
    ensures Sound(ExecuteUpdateStatus(db, resourceId, status, now).db, now)
  {
    if ExecuteUpdateStatus(db, resourceId, status, now).failure.None? {
      var r := db.resources[resourceId];
      assert ResourceChecks(r);
      hide Sound, HourMs, InSchedule, EndsAfterNow;
      forall b | b in db.bookings && db.bookings[b].resourceId == resourceId
        ensures Tenable(r.(status := status), db.Closed(resourceId, db.bookings[b].date), db.bookings[b], now)
        ensures db.bookings[b].status == CheckedIn ==> status == Active
      {
        RowFacts(db, b, now);
        EndedExactly(db.bookings[b], now);
        assert status != Active ==> b !in StatusConflicts(db, resourceId, now);
      }
      RewriteResource(db, resourceId, r.(status := status), now);
    }
  }

  lemma CreateClosureKeepsSound(db: Database, resourceId: Id, date: WrittenDate, closure: Closure, now: int)
    requires Sound(db, now)
    ensures Sound(ExecuteCreateClosure(db, resourceId, date, closure, now).db, now)
  {
    hide Sound, PassesDateCheck, DayNumber, ClosureConflicts;
    var out := ExecuteCreateClosure(db, resourceId, date, closure, now);
    if out.failure.None? {
      PutClosure(db, resourceId, DayNumber(date), closure, now);
    }
  }

  /** Writing a closure that strands nobody. */
  lemma PutClosure(db: Database, resourceId: Id, day: int, closure: Closure, now: int)
    requires Sound(db, now) && ClosureConflicts(db, resourceId, day, now) == {} && !db.Closed(resourceId, day)
    requires !exists k :: k in db.closures && db.closures[k].id == closure.id
    ensures Sound(db.(closures := db.closures[(resourceId, day) := closure]), now)
  {
    hide SoundRow, Conflict, ClosureConflicts;
    forall id | id in db.bookings
      ensures NotStranded(db.(closures := db.closures[(resourceId, day) := closure]), db.bookings[id], now)
    {
      ClosureSparesBooking(db, resourceId, day, id, now);
      assert NotStranded(db, db.bookings[id], now);
    }
  }

  lemma ClosureSparesBooking(db: Database, resourceId: Id, day: int, id: Id, now: int)
    requires RowsSound(db, now) && NoneStranded(db, now) && id in db.bookings
             && ClosureConflicts(db, resourceId, day, now) == {}
    ensures var b := db.bookings[id]; b.resourceId == resourceId && b.date == day ==> !(b.Blocking() && now < b.EndMs())
  {
    var b := db.bookings[id];
    EndedExactly(b, now);
    assert id !in ClosureConflicts(db, resourceId, day, now);
  }

  lemma CreateResourceKeepsSound(db: Database, newId: Id, draft: ResourceDraft, now: int)
    requires Sound(db, now)
    ensures Sound(ExecuteCreateResource(db, newId, draft, now).db, now)
  {
    hide Sound;
    if ExecuteCreateResource(db, newId, draft, now).failure.None? {
      assert forall other :: !HasCode(db, other, draft.code);
      PutResource(db, newId, NewResource(draft, now), now);
    }
  }

  lemma DeleteClosureKeepsSound(db: Database, resourceId: Id, closureId: Id, now: int)
    requires Sound(db, now)
    ensures Sound(ExecuteDeleteClosure(db, resourceId, closureId).db, now)
  {
  }

  /** Writing a resource row that no booking needs, under a code nobody else has. */
  lemma PutResource(db: Database, id: Id, row: Resource, now: int)
    requires Sound(db, now) && ResourceChecks(row)
    requires forall other :: HasCode(db, other, row.code) ==> other == id
    requires id in db.resources ==> !HasActiveBooking(db, id)
    ensures Sound(db.(resources := db.resources[id := row]), now)
  {
    hide SoundRow, Conflict, ResourceChecks, InSchedule;
    var after := db.(resources := db.resources[id := row]);
    PutCode(db, id, row);
    forall other | other in db.bookings
      ensures NotStranded(after, db.bookings[other], now)
      ensures db.bookings[other].status == CheckedIn ==> after.resources[db.bookings[other].resourceId].status == Active
    {
      assert NotStranded(db, db.bookings[other], now);
    }
  }

  lemma PutCode(db: Database, id: Id, row: Resource)
    requires CodesUnique(db) && forall other :: HasCode(db, other, row.code) ==> other == id
    ensures CodesUnique(db.(resources := db.resources[id := row]))
  {
    var after := db.(resources := db.resources[id := row]);
    forall i, j | i in after.resources && j in after.resources && after.resources[i].code == after.resources[j].code
      ensures i == j
    {
      assert i != id ==> HasCode(db, i, after.resources[i].code);
      assert j != id ==> HasCode(db, j, after.resources[j].code);
    }
  }

  /** With unique codes an upsert finds the one resource with the code. */
  lemma HolderUnique(db: Database, code: string, id: Id)
    requires CodesUnique(db)
    ensures HasCode(db, id, code) <==> Holder(db, code) == Some(id)
  {
  }

  lemma ImportResourceKeepsSound(db: Database, newId: Id, row: ImportRow, now: int)
    requires Sound(db, now)
    ensures Sound(ExecuteImportResource(db, newId, row, now).db, now)
  {
    hide Sound, HasActiveBooking;
    assert CodesUnique(db) by { SoundParts(db, now); }
    match Holder(db, row.code)
    case Some(id) =>
      if !HasActiveBooking(db, id) {
        PutResource(db, id, row.(createdAt := db.resources[id].createdAt), now);
      }
    case None =>
      if newId !in db.resources {
        PutResource(db, newId, row.(createdAt := now), now);
      }
  }

  lemma SoundParts(db: Database, now: int)
    requires Sound(db, now)
    ensures CodesUnique(db) && ClosureIdsUnique(db) && RowsSound(db, now)
  {
  }

  lemma ImportClosureKeepsSound(db: Database, id: Id, day: int, closure: Closure, now: int)
    requires Sound(db, now)
    ensures Sound(ExecuteImportClosure(db, id, day, closure).db, now)
  {
    hide SoundRow, Conflict, InSchedule, ResourceChecks;
    var after := ExecuteImportClosure(db, id, day, closure).db;
    forall other | other in db.bookings
      ensures NotStranded(after, db.bookings[other], now)
    {
      assert NotStranded(db, db.bookings[other], now);
      assert HasActiveBookingOn(db, id, day) || !db.Blocks(other, id, day);
    }
  }

  /** A deleted resource has no bookings, and the closures left are those of other resources. */
  lemma CleanKeepsSound(db: Database, codes: set<string>, now: int)
    requires Sound(db, now)
    ensures Sound(Cleaned(db, codes), now)
  {
    hide SoundRow, Conflict, ResourceChecks, Tenable;
    var after := Cleaned(db, codes);
    forall id | id in db.bookings
      ensures NotStranded(after, db.bookings[id], now)
      ensures db.bookings[id].status == CheckedIn ==> after.resources[db.bookings[id].resourceId].status == Active
    {
      assert NotStranded(db, db.bookings[id], now);
      assert !Cleanable(db, codes, db.bookings[id].resourceId);
    }
  }

  /** Every transaction keeps every constraint, strands nobody and double-books nothing. */
  lemma ExecuteKeepsSound(db: Database, command: Command, now: int)
    requires Sound(db, now)
    ensures Sound(Execute(db, command, now).db, now)
  {
    hide Sound;
    match command
    case CreateBooking(requesterId, request, newId) => CreateKeepsSound(db, requesterId, request, newId, now);
    case Progress(bookingId, lifecycle) => ProgressKeepsSound(db, bookingId, lifecycle, now);
    case CreateResource(newId, draft) => CreateResourceKeepsSound(db, newId, draft, now);
    case UpdateResource(id, change) => UpdateResourceKeepsSound(db, id, change, now);
    case UpdateStatus(id, status) => UpdateStatusKeepsSound(db, id, status, now);
    case CreateClosure(id, date, closure) => CreateClosureKeepsSound(db, id, date, closure, now);
    case DeleteClosure(id, closureId) => DeleteClosureKeepsSound(db, id, closureId, now);
    case ImportResource(newId, row) => ImportResourceKeepsSound(db, newId, row, now);
    case ImportClosure(id, day, closure) => ImportClosureKeepsSound(db, id, day, closure, now);
    case CleanCatalog(codes) => CleanKeepsSound(db, codes, now);
  }

  // ---------------------------------------------------------- notifications

  predicate Announced(events: seq<Event>, resourceId: Id, day: int) {
    AvailabilityChanged(resourceId, day) in events || ResourceChanged(resourceId) in events
  }

  /** What the view of a resource on a day is computed from. */
  predicate SameInputs(a: Database, b: Database, resourceId: Id, day: int) {
    (resourceId in a.resources <==> resourceId in b.resources)
    && (resourceId in a.resources ==> a.resources[resourceId] == b.resources[resourceId])
    && (a.Closed(resourceId, day) <==> b.Closed(resourceId, day))
    && (a.Closed(resourceId, day) ==> a.closures[(resourceId, day)] == b.closures[(resourceId, day)])
    && a.BusyOn(resourceId, day) == b.BusyOn(resourceId, day)
  }

  lemma SameInputsSameView(a: Database, b: Database, resourceId: Id, day: int, at: int)
    requires SameInputs(a, b, resourceId, day)
    ensures View(a, resourceId, day, at) == View(b, resourceId, day, at)
  {
  }

  /** Replacing one row leaves the busy hours alone where the row blocks the same hours as before, or none. */
  lemma BusyAfterPut(db: Database, id: Id, row: Booking, resourceId: Id, day: int)
    requires var after := db.(bookings := db.bookings[id := row]);
             (db.Blocks(id, resourceId, day) <==> after.Blocks(id, resourceId, day))
             && (db.Blocks(id, resourceId, day) ==> IntervalOf(db.bookings[id]) == IntervalOf(row))
    ensures db.(bookings := db.bookings[id := row]).BusyOn(resourceId, day) == db.BusyOn(resourceId, day)
  {
    var after := db.(bookings := db.bookings[id := row]);
    assert forall other :: other in db.bookings && other != id ==>
        after.bookings[other] == db.bookings[other]
          && (db.Blocks(other, resourceId, day) <==> after.Blocks(other, resourceId, day));
    forall x | x in db.BusyOn(resourceId, day)
      ensures x in after.BusyOn(resourceId, day)
    {
      var other :| other in db.bookings && db.Blocks(other, resourceId, day) && x == IntervalOf(db.bookings[other]);
      assert other in after.bookings && after.Blocks(other, resourceId, day) && x == IntervalOf(after.bookings[other]);
    }
    forall x | x in after.BusyOn(resourceId, day)
      ensures x in db.BusyOn(resourceId, day)
    {
      var other :| other in after.bookings && after.Blocks(other, resourceId, day)
        && x == IntervalOf(after.bookings[other]);
      assert other in db.bookings && db.Blocks(other, resourceId, day) && x == IntervalOf(db.bookings[other]);
    }
  }

  lemma ProgressAnnounces(db: Database, bookingId: Id, command: Lifecycle, now: int, resourceId: Id, day: int)
    requires RowsSound(db, now)
    ensures var out := ExecuteProgress(db, bookingId, command, now);
            SameInputs(out.db, db, resourceId, day) || Announced(out.events, resourceId, day)
  {
    hide Advance, SoundRow, RowsSound, SameInputs, Publishes;
    if bookingId in db.bookings && Advance(db.bookings[bookingId], command, now).Ok? {
      var before := db.bookings[bookingId];
      if !(Publishes(command) && before.resourceId == resourceId && before.date == day) {
        ProgressFrees(db, bookingId, command, now, resourceId, day);
      }
    } else {
      SameInputsReflexive(db, resourceId, day);
    }
  }

  lemma SameInputsReflexive(db: Database, resourceId: Id, day: int)
    ensures SameInputs(db, db, resourceId, day)
  {
  }

  /** A row moved on changes no other day, and none at all when the command publishes nothing. */
  lemma ProgressFrees(db: Database, bookingId: Id, command: Lifecycle, now: int, resourceId: Id, day: int)
    requires RowsSound(db, now) && bookingId in db.bookings && Advance(db.bookings[bookingId], command, now).Ok?
    requires !(Publishes(command) && db.bookings[bookingId].resourceId == resourceId
               && db.bookings[bookingId].date == day)
    ensures var after := Advance(db.bookings[bookingId], command, now).value;
            SameInputs(db.(bookings := db.bookings[bookingId := after]), db, resourceId, day)
  {
    var before := db.bookings[bookingId];
    assert SoundRow(before, now);
    AdvanceReleases(before, command, now);
    QuietKeepsBlocking(before, command, now);
    hide Advance, SoundRow, RowsSound, SameInputs, Publishes;
    var after := Advance(before, command, now).value;
    BusyAfterPut(db, bookingId, after, resourceId, day);
    OnlyBusyMatters(db, db.(bookings := db.bookings[bookingId := after]), resourceId, day);
  }

  /** A command that publishes nothing leaves a blocking row blocking. */
  lemma QuietKeepsBlocking(b: Booking, command: Lifecycle, now: int)
    ensures var r := Advance(b, command, now); r.Ok? && !Publishes(command) ==> b.Blocking() && r.value.Blocking()
  {
  }

  lemma OnlyBusyMatters(a: Database, b: Database, resourceId: Id, day: int)
    requires b.resources == a.resources && b.closures == a.closures
             && b.BusyOn(resourceId, day) == a.BusyOn(resourceId, day)
    ensures SameInputs(b, a, resourceId, day)
  {
  }

  lemma CreateAnnounces(db: Database, requesterId: Id, request: BookingRequest, newId: Id, now: int, resourceId: Id,
                        day: int)
    ensures var out := ExecuteCreate(db, requesterId, request, newId, now);
            SameInputs(out.db, db, resourceId, day) || Announced(out.events, resourceId, day)
  {
    var out := ExecuteCreate(db, requesterId, request, newId, now);
    hide PassesDateCheck, DayNumber, Conflict;
    if out.failure.None? && !(request.resourceId == resourceId && DayNumber(request.date) == day) {
      BusyAfterPut(db, newId, NewBooking(db.resources[request.resourceId], requesterId, request, now), resourceId, day);
    }
  }

  lemma DeleteClosureAnnounces(db: Database, id: Id, closureId: Id, resourceId: Id, day: int)
    requires ClosureIdsUnique(db)
    ensures var out := ExecuteDeleteClosure(db, id, closureId);
            SameInputs(out.db, db, resourceId, day) || Announced(out.events, resourceId, day)
  {
  }

  lemma UpdateAnnounces(db: Database, command: Command, now: int, resourceId: Id, day: int)
    requires command.UpdateResource? || command.UpdateStatus?
    ensures var out := Execute(db, command, now);
            SameInputs(out.db, db, resourceId, day) || Announced(out.events, resourceId, day)
  {
    hide ScheduleConflicts, StatusConflicts, ScheduleChanges, Changed;
    var out := Execute(db, command, now);
    assert out.db.bookings == db.bookings;
    assert out.db.BusyOn(resourceId, day) == db.BusyOn(resourceId, day);
  }

  lemma CreateClosureAnnounces(db: Database, id: Id, date: WrittenDate, closure: Closure, now: int, resourceId: Id,
                               day: int)
    ensures var out := ExecuteCreateClosure(db, id, date, closure, now);
            SameInputs(out.db, db, resourceId, day) || Announced(out.events, resourceId, day)
  {
    hide ClosureConflicts, PassesDateCheck, DayNumber;
    var out := ExecuteCreateClosure(db, id, date, closure, now);
    assert out.db.BusyOn(resourceId, day) == db.BusyOn(resourceId, day);
  }

  /** The commands that publish nothing whatever they change in resources and closures. */
  predicate Unannounced(command: Command) {
    command.CreateResource? || command.ImportResource? || command.ImportClosure? || command.CleanCatalog?
  }

  lemma KeepsOrAnnounces(db: Database, command: Command, now: int, resourceId: Id, day: int)
    requires Sound(db, now) && !Unannounced(command)
    ensures var out := Execute(db, command, now);
            SameInputs(out.db, db, resourceId, day) || Announced(out.events, resourceId, day)
  {
    SoundParts(db, now);
    hide SameInputs, Sound;
    match command
    case CreateBooking(requesterId, request, newId) =>
      CreateAnnounces(db, requesterId, request, newId, now, resourceId, day);
    case Progress(bookingId, lifecycle) => ProgressAnnounces(db, bookingId, lifecycle, now, resourceId, day);
    case DeleteClosure(id, closureId) => DeleteClosureAnnounces(db, id, closureId, resourceId, day);
    case UpdateResource(id, change) => UpdateAnnounces(db, command, now, resourceId, day);
    case UpdateStatus(id, status) => UpdateAnnounces(db, command, now, resourceId, day);
    case CreateClosure(id, date, closure) => CreateClosureAnnounces(db, id, date, closure, now, resourceId, day);
  }

  /** The columns an availability response is built from. */
  predicate SameColumns(a: Resource, b: Resource) {
    a.status == b.status && a.operatingDays == b.operatingDays && a.opensAt == b.opensAt && a.closesAt == b.closesAt
    && a.requiresApproval == b.requiresApproval
  }

  /** Every response shows these columns, so another value of one of them shows. */
  lemma ColumnsShow(a: Database, b: Database, resourceId: Id, day: int, at: int)
    requires resourceId in a.resources && resourceId in b.resources && b.closures == a.closures
             && b.bookings == a.bookings
    ensures View(a, resourceId, day, at) == View(b, resourceId, day, at)
       <==> SameColumns(a.resources[resourceId], b.resources[resourceId])
  {
    hide WeekdayOf;
    assert a.BusyOn(resourceId, day) == b.BusyOn(resourceId, day);
  }

  /** A new closure shows exactly on an ACTIVE resource: other statuses are named before it. */
  lemma ClosureShows(db: Database, id: Id, day: int, closure: Closure, at: int)
    requires id in db.resources && !db.Closed(id, day)
    ensures View(db.(closures := db.closures[(id, day) := closure]), id, day, at) == View(db, id, day, at)
       <==> db.resources[id].status != Active
  {
    hide WeekdayOf;
    var after := db.(closures := db.closures[(id, day) := closure]);
    assert after.BusyOn(id, day) == db.BusyOn(id, day);
  }

  lemma OtherClosuresStay(db: Database, id: Id, closedDay: int, closure: Closure, resourceId: Id, day: int)
    requires resourceId != id || day != closedDay
    ensures SameInputs(db.(closures := db.closures[(id, closedDay) := closure]), db, resourceId, day)
  {
    var after := db.(closures := db.closures[(id, closedDay) := closure]);
    assert after.BusyOn(resourceId, day) == db.BusyOn(resourceId, day);
  }

  lemma OtherResourcesStay(db: Database, id: Id, row: Resource, resourceId: Id, day: int)
    requires resourceId != id
    ensures SameInputs(db.(resources := db.resources[id := row]), db, resourceId, day)
  {
    var after := db.(resources := db.resources[id := row]);
    assert after.BusyOn(resourceId, day) == db.BusyOn(resourceId, day);
  }

  /** Before an unannounced command: it will change the view of the resource on the day. */
  ghost predicate ChangesSilently(db: Database, command: Command, resourceId: Id, day: int) {
    match command
    case CreateResource(newId, draft) =>
      newId == resourceId && newId !in db.resources && NewResource(draft, 0).opensAt < NewResource(draft, 0).closesAt
      && !CodeTaken(db, draft.code)
    case ImportResource(newId, row) =>
      (HasCode(db, resourceId, row.code) && !HasActiveBooking(db, resourceId)
       && !SameColumns(db.resources[resourceId], row))
      || (newId == resourceId && newId !in db.resources && !CodeTaken(db, row.code))
    case ImportClosure(id, closedDay, closure) =>
      id == resourceId && closedDay == day && id in db.resources && db.resources[id].status == Active
      && !db.Closed(id, day) && !HasActiveBookingOn(db, id, day) && !HasClosureId(db, closure.id)
    case CleanCatalog(codes) => Cleanable(db, codes, resourceId)
    case _ => false
  }

  lemma CreateResourceShows(db: Database, newId: Id, draft: ResourceDraft, now: int, resourceId: Id, day: int, at: int)
    ensures var out := ExecuteCreateResource(db, newId, draft, now);
            View(out.db, resourceId, day, at) != View(db, resourceId, day, at)
            <==> ChangesSilently(db, CreateResource(newId, draft), resourceId, day)
  {
    var out := ExecuteCreateResource(db, newId, draft, now);
    if out.failure.None? && resourceId != newId {
      OtherResourcesStay(db, newId, NewResource(draft, now), resourceId, day);
      hide View, SameInputs;
      SameInputsSameView(out.db, db, resourceId, day, at);
    } else {
      hide ResponseFor;
    }
  }

  /** Creating a resource publishes nothing although its view appears. */
  lemma CreateResourceIsSilent(db: Database, newId: Id, draft: ResourceDraft, now: int, day: int, at: int)
    requires ExecuteCreateResource(db, newId, draft, now).failure.None?
    ensures var out := ExecuteCreateResource(db, newId, draft, now);
            out.events == [] && View(db, newId, day, at).None? && View(out.db, newId, day, at).Some?
  {
    hide ResponseFor, CodeTaken;
  }

  lemma UpsertShows(db: Database, newId: Id, row: ImportRow, now: int, resourceId: Id, day: int, at: int)
    requires CodesUnique(db)
    ensures var out := ExecuteImportResource(db, newId, row, now);
            View(out.db, resourceId, day, at) != View(db, resourceId, day, at)
            <==> ChangesSilently(db, ImportResource(newId, row), resourceId, day)
  {
    hide ResponseFor, HasActiveBooking;
    var out := ExecuteImportResource(db, newId, row, now);
    HolderUnique(db, row.code, resourceId);
    var changed := if Holder(db, row.code).Some? then Holder(db, row.code).value else newId;
    if out.db != db {
      if changed != resourceId {
        OtherResourcesStay(db, changed, out.db.resources[changed], resourceId, day);
        SameInputsSameView(out.db, db, resourceId, day, at);
      } else if Holder(db, row.code).Some? {
        ColumnsShow(db, out.db, resourceId, day, at);
      }
    }
  }

  lemma ImportedClosureShows(db: Database, id: Id, closedDay: int, closure: Closure, resourceId: Id, day: int, at: int)
    ensures var out := ExecuteImportClosure(db, id, closedDay, closure);
            View(out.db, resourceId, day, at) != View(db, resourceId, day, at)
            <==> ChangesSilently(db, ImportClosure(id, closedDay, closure), resourceId, day)
  {
    hide View, HasActiveBookingOn, HasClosureId, SameInputs;
    var out := ExecuteImportClosure(db, id, closedDay, closure);
    if out.db != db {
      if id == resourceId && closedDay == day {
        ClosureShows(db, id, day, closure, at);
      } else {
        OtherClosuresStay(db, id, closedDay, closure, resourceId, day);
        SameInputsSameView(out.db, db, resourceId, day, at);
      }
    }
  }

  lemma CleanShows(db: Database, codes: set<string>, resourceId: Id, day: int, at: int)
    ensures View(Cleaned(db, codes), resourceId, day, at) != View(db, resourceId, day, at)
       <==> ChangesSilently(db, CleanCatalog(codes), resourceId, day)
  {
    hide ResponseFor, HasBooking;
    var after := Cleaned(db, codes);
    if !Cleanable(db, codes, resourceId) {
      assert after.BusyOn(resourceId, day) == db.BusyOn(resourceId, day);
      SameInputsSameView(after, db, resourceId, day, at);
    }
  }

  /**
   * A command changes the view of a resource on a day, at whatever evaluation
   * time, without an event for that view exactly when it creates the resource,
   * when the import upserts other columns or adds a closure that shows, or when
   * cleaning the catalog deletes the resource.
   */
  lemma NotificationsComplete(db: Database, command: Command, now: int, resourceId: Id, day: int, at: int)
    requires Sound(db, now)
    ensures var out := Execute(db, command, now);
            View(out.db, resourceId, day, at) != View(db, resourceId, day, at)
              && !Announced(out.events, resourceId, day)
            <==> ChangesSilently(db, command, resourceId, day)
  {
    SoundParts(db, now);
    hide Sound, View, SameInputs;
    var out := Execute(db, command, now);
    match command
    case CreateResource(newId, draft) => CreateResourceShows(db, newId, draft, now, resourceId, day, at);
    case ImportResource(newId, row) => UpsertShows(db, newId, row, now, resourceId, day, at);
    case ImportClosure(id, closedDay, closure) => ImportedClosureShows(db, id, closedDay, closure, resourceId, day, at);
    case CleanCatalog(codes) => CleanShows(db, codes, resourceId, day, at);
    case _ =>
      KeepsOrAnnounces(db, command, now, resourceId, day);
      if SameInputs(out.db, db, resourceId, day) {
        SameInputsSameView(out.db, db, resourceId, day, at);
      }
  }
}
