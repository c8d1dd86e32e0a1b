/**
 * The transactions of the booking and resource services, each as one atomic
 * step over the shared tables, with the events it publishes.
 */
module Campus {
  import opened Bookings
  import opened Calendar
  import opened CampusClock
  import opened Resources
  import opened Wrappers

  datatype Failure =
    | Domain(error: Error)
    | HasActiveBookings(count: nat)
    | UnknownResource
    | InvalidOperatingHours
    | InvalidAvailabilityDate
    | ClosureAlreadyExists
    | ClosureNotFound
    | ResourceCodeAlreadyExists
    | DuplicateKey

  /** A message to the availability rooms, or to every client. */
  datatype Event = AvailabilityChanged(resourceId: Id, day: int) | ResourceChanged(resourceId: Id)

  datatype Outcome = Outcome(db: Database, failure: Option<Failure>, events: seq<Event>)

  /** CreateBookingDto; the date is the three numbers of the split text. */
  datatype BookingRequest = BookingRequest(resourceId: Id, date: WrittenDate, startHour: Hour, endHour: Hour)

  datatype Command =
    | CreateBooking(requesterId: Id, request: BookingRequest, newId: Id)
    | Progress(bookingId: Id, lifecycle: Lifecycle)
    | CreateResource(newId: Id, draft: ResourceDraft)
    | UpdateResource(resourceId: Id, change: ResourceChange)
    | UpdateStatus(resourceId: Id, status: ResourceStatus)
    | CreateClosure(resourceId: Id, date: WrittenDate, closure: Closure)
    | DeleteClosure(resourceId: Id, closureId: Id)
    | ImportResource(newId: Id, row: ImportRow)
    | ImportClosure(resourceId: Id, day: int, closure: Closure)
    | CleanCatalog(codes: set<string>)

  function Fail(db: Database, failure: Failure): Outcome {
    Outcome(db, Some(failure), [])
  }

  // --------------------------------------------------------------- booking

  /** `requireValidRequest` */
  function RequestError(request: BookingRequest, now: int): Option<Error> {
    if !PassesDateCheck(request.date) then Some(InvalidBookingDate)
    else if request.startHour >= request.endHour then Some(InvalidBookingRange)
    else if !IsFuture(DayNumber(request.date), request.startHour, now) then Some(BookingInPast)
    else None
  }

  /** The row `create` inserts. */
  function NewBooking(r: Resource, requesterId: Id, request: BookingRequest, now: int): Booking {
    Booking(request.resourceId, requesterId, DayNumber(request.date), request.startHour, request.endHour,
            if r.requiresApproval then Pending else Confirmed, now,
            None, None, None, None, None, None, None, None, None, None, None, None)
  }

  /** Some stored booking excludes the row. */
  predicate Excluded(db: Database, row: Booking) {
    exists id :: id in db.bookings && Conflict(db.bookings[id], row)
  }

  function ExecuteCreate(db: Database, requesterId: Id, request: BookingRequest, newId: Id, now: int): Outcome {
    var invalid := RequestError(request, now);
    var id := request.resourceId;
    if invalid.Some? then Fail(db, Domain(invalid.value))
    else if id !in db.resources then Fail(db, Domain(Error.ResourceNotFound))
    else
      var day := DayNumber(request.date);
      var r := db.resources[id];
      if !Operational(r, day, request.startHour, request.endHour) then Fail(db, Domain(ResourceUnavailable))
      else if db.Closed(id, day) then Fail(db, Domain(ResourceUnavailable))
      else
        var row := NewBooking(r, requesterId, request, now);
        if newId in db.bookings then Fail(db, DuplicateKey)
        else if Excluded(db, row) then Fail(db, Domain(BookingOverlap))
        else Outcome(db.(bookings := db.bookings[newId := row]), None, [AvailabilityChanged(id, day)])
  }

  /** Whether a lifecycle command publishes an event. */
  predicate Publishes(command: Lifecycle) {
    !command.RequestCheckIn? && !command.ConfirmCheckIn?
  }

  function ExecuteProgress(db: Database, bookingId: Id, command: Lifecycle, now: int): Outcome {
    if bookingId !in db.bookings then Fail(db, Domain(BookingNotFound))
    else
      var b := db.bookings[bookingId];
      match Advance(b, command, now)
      case Err(error) => Fail(db, Domain(error))
      case Ok(after) =>
        Outcome(db.(bookings := db.bookings[bookingId := after]), None,
                if Publishes(command) then [AvailabilityChanged(b.resourceId, b.date)] else [])
  }

  // -------------------------------------------------------------- resources

  /** CreateResourceDto, reduced to what availability depends on. */
  datatype ResourceDraft = ResourceDraft(
    code: string,
    operatingDays: Option<Weekdays>,
    opensAt: Option<Hour>,
    closesAt: Option<Hour>,
    requiresApproval: Option<bool>)

  /** The row `create` saves, with its defaults. */
  function NewResource(draft: ResourceDraft, now: int): Resource {
    Resource(draft.code, Active,
             if draft.operatingDays.Some? then draft.operatingDays.value else {1, 2, 3, 4, 5, 6},
             if draft.opensAt.Some? then draft.opensAt.value else 8,
             if draft.closesAt.Some? then draft.closesAt.value else 18,
             Or(draft.requiresApproval, false), now)
  }

  function ExecuteCreateResource(db: Database, newId: Id, draft: ResourceDraft, now: int): Outcome {
    var row := NewResource(draft, now);
    if row.opensAt >= row.closesAt then Fail(db, InvalidOperatingHours)
    else if CodeTaken(db, draft.code) then Fail(db, ResourceCodeAlreadyExists)
    else if newId in db.resources then Fail(db, DuplicateKey)
    else Outcome(db.(resources := db.resources[newId := row]), None, [])
  }

  function ExecuteUpdateResource(db: Database, id: Id, change: ResourceChange, now: int): Outcome {
    if id !in db.resources then Fail(db, UnknownResource)
    else
      var r := db.resources[id];
      var after := Changed(r, change);
      var conflicts := ScheduleConflicts(db, id, after, now);
      if after.opensAt >= after.closesAt then Fail(db, InvalidOperatingHours)
      else if ScheduleChanges(r, change) && conflicts != {} then Fail(db, HasActiveBookings(|conflicts|))
      else Outcome(db.(resources := db.resources[id := after]), None, [ResourceChanged(id)])
  }

  function ExecuteUpdateStatus(db: Database, id: Id, status: ResourceStatus, now: int): Outcome {
    if id !in db.resources then Fail(db, UnknownResource)
    else
      var conflicts := StatusConflicts(db, id, now);
      if status != Active && conflicts != {} then Fail(db, HasActiveBookings(|conflicts|))
      else Outcome(db.(resources := db.resources[id := db.resources[id].(status := status)]), None,
                   [ResourceChanged(id)])
  }

  function ExecuteCreateClosure(db: Database, id: Id, date: WrittenDate, closure: Closure, now: int): Outcome {
    if !PassesDateCheck(date) then Fail(db, InvalidAvailabilityDate)
    else if id !in db.resources then Fail(db, UnknownResource)
    else
      var day := DayNumber(date);
      var conflicts := ClosureConflicts(db, id, day, now);
      if conflicts != {} then Fail(db, HasActiveBookings(|conflicts|))
      else if db.Closed(id, day) then Fail(db, ClosureAlreadyExists)
      else if HasClosureId(db, closure.id) then Fail(db, DuplicateKey)
      else Outcome(db.(closures := db.closures[(id, day) := closure]), None, [AvailabilityChanged(id, day)])
  }

  /** The key of the closure with an id on a resource. */
  predicate IsClosure(db: Database, resourceId: Id, closureId: Id, key: (Id, int)) {
    key in db.closures && key.0 == resourceId && db.closures[key].id == closureId
  }

  /** The closure that deletion by id finds on the resource. */
  ghost function ClosureKey(db: Database, resourceId: Id, closureId: Id): Option<(Id, int)> {
    if key: (Id, int) :| IsClosure(db, resourceId, closureId, key) then Some(key) else None
  }

  function WithoutClosure(db: Database, resourceId: Id, closureId: Id): Database {
    db.(closures := map k | k in db.closures && !IsClosure(db, resourceId, closureId, k) :: db.closures[k])
  }

  ghost function ExecuteDeleteClosure(db: Database, id: Id, closureId: Id): Outcome {
    if id !in db.resources then Fail(db, UnknownResource)
    else
      match ClosureKey(db, id, closureId)
      case Some(key) => Outcome(WithoutClosure(db, id, closureId), None, [AvailabilityChanged(id, key.1)])
      case None => Fail(db, ClosureNotFound)
  }

  /** The catalog upsert: it skips a resource with active bookings, and publishes nothing. */
  ghost function ExecuteImportResource(db: Database, newId: Id, row: ImportRow, now: int): Outcome {
    match Holder(db, row.code)
    case Some(id) =>
      if HasActiveBooking(db, id) then Outcome(db, None, [])
      else Outcome(db.(resources := db.resources[id := row.(createdAt := db.resources[id].createdAt)]), None, [])
    case None =>
      if newId in db.resources then Fail(db, DuplicateKey)
      else Outcome(db.(resources := db.resources[newId := row.(createdAt := now)]), None, [])
  }

  /** The guarded insert of a catalog closure, which publishes nothing either. */
  ghost function ExecuteImportClosure(db: Database, id: Id, day: int, closure: Closure): Outcome {
    if id !in db.resources then Fail(db, UnknownResource)
    else if HasActiveBookingOn(db, id, day) || db.Closed(id, day) then Outcome(db, None, [])
    else if HasClosureId(db, closure.id) then Fail(db, DuplicateKey)
    else Outcome(db.(closures := db.closures[(id, day) := closure]), None, [])
  }

  /** `cleanCatalog` deletes the resource: its code is listed, and no booking ever named it. */
  predicate Cleanable(db: Database, codes: set<string>, id: Id) {
    id in db.resources && db.resources[id].code in codes && !HasBooking(db, id)
  }

  /** The tables without the cleanable resources; the closures of a resource are deleted with it. */
  function Cleaned(db: Database, codes: set<string>): Database {
    db.(resources := map id | id in db.resources && !Cleanable(db, codes, id) :: db.resources[id],
        closures := map k | k in db.closures && !Cleanable(db, codes, k.0) :: db.closures[k])
  }

  /** One service transaction whose clock reads all give `now`. */
  ghost function Execute(db: Database, command: Command, now: int): Outcome {
    match command
    case CreateBooking(requesterId, request, newId) => ExecuteCreate(db, requesterId, request, newId, now)
    case Progress(bookingId, lifecycle) => ExecuteProgress(db, bookingId, lifecycle, now)
    case CreateResource(newId, draft) => ExecuteCreateResource(db, newId, draft, now)
    case UpdateResource(id, change) => ExecuteUpdateResource(db, id, change, now)
    case UpdateStatus(id, status) => ExecuteUpdateStatus(db, id, status, now)
    case CreateClosure(id, date, closure) => ExecuteCreateClosure(db, id, date, closure, now)
    case DeleteClosure(id, closureId) => ExecuteDeleteClosure(db, id, closureId)
    case ImportResource(newId, row) => ExecuteImportResource(db, newId, row, now)
    case ImportClosure(id, day, closure) => ExecuteImportClosure(db, id, day, closure)
    case CleanCatalog(codes) => Outcome(Cleaned(db, codes), None, [])
  }
}
