/**
 * The same transactions split at their lock, read, check, write and commit
 * points, interleaved in any order with the clock and with each other.
 *
 * Assumed of PostgreSQL at READ COMMITTED: FOR UPDATE is held to the end of the
 * transaction and returns the latest committed row, every statement reads what
 * is committed when it starts, an insert into closures or an upsert of a
 * resource needs the resource row, constraints are checked at the write, and the
 * exclusion check waits for an uncommitted update of a row in conflict.
 */
module Interleaving {
  import opened Bookings
  import opened Calendar
  import opened Campus
  import opened CampusInvariants
  import opened Resources
  import opened Wrappers

  /** What an open transaction holds and has read; it is dropped on commit and on rollback. */
  datatype Txn =
    | CreateReady(requesterId: Id, request: BookingRequest)
    | CreateLocked(requesterId: Id, request: BookingRequest, resource: Resource)
    | CreateOpen(requesterId: Id, request: BookingRequest, resource: Resource)
    | CreateInserted(newId: Id, row: Booking)
    | UpdateLocked(resourceId: Id, change: ResourceChange)
    | UpdateChecked(resourceId: Id, change: ResourceChange)
    | StatusLocked(resourceId: Id, status: ResourceStatus)
    | StatusChecked(resourceId: Id, status: ResourceStatus)
    | ClosureLocked(resourceId: Id, day: int, closure: Closure)
    | ClosureChecked(resourceId: Id, day: int, closure: Closure)
    | DeletionReady(resourceId: Id, closureId: Id, found: Option<int>)
    | DeletionLocked(resourceId: Id, closureId: Id, found: Option<int>)
    | RowLocked(bookingId: Id, command: Lifecycle)
    | RowWritten(bookingId: Id, row: Booking)

  /** The resource row a transaction holds. */
  function ResourceHeld(x: Txn): Option<Id> {
    match x
    case CreateLocked(_, request, _) => Some(request.resourceId)
    case CreateOpen(_, request, _) => Some(request.resourceId)
    case CreateInserted(_, row) => Some(row.resourceId)
    case UpdateLocked(id, _) => Some(id)
    case UpdateChecked(id, _) => Some(id)
    case StatusLocked(id, _) => Some(id)
    case StatusChecked(id, _) => Some(id)
    case ClosureLocked(id, _, _) => Some(id)
    case ClosureChecked(id, _, _) => Some(id)
    case DeletionLocked(id, _, _) => Some(id)
    case _ => None
  }

  /** The booking row a transaction holds, or has inserted. */
  function BookingHeld(x: Txn): Option<Id> {
    match x
    case CreateInserted(newId, _) => Some(newId)
    case RowLocked(id, _) => Some(id)
    case RowWritten(id, _) => Some(id)
    case _ => None
  }

  /** The transaction has written a booking that is not committed. */
  predicate HoldsWrite(x: Txn) {
    x.CreateInserted? || x.RowWritten?
  }

  datatype State = State(now: int, db: Database, txns: map<nat, Txn>)
  {
    ghost predicate ResourceFree(id: Id) {
      forall t :: t in txns ==> ResourceHeld(txns[t]) != Some(id)
    }

    ghost predicate BookingFree(id: Id) {
      forall t :: t in txns ==> BookingHeld(txns[t]) != Some(id)
    }

    function Put(t: nat, x: Txn): State {
      this.(txns := txns[t := x])
    }

    function Drop(t: nat): State {
      this.(txns := txns - {t})
    }

    function Write(t: nat, after: Database): State {
      State(now, after, txns - {t})
    }
  }

  datatype Action =
    | Tick(elapsed: nat)
    | BeginCreate(requesterId: Id, request: BookingRequest)
    | LockForCreate
    | FindClosure
    | Insert(newId: Id)
    | LockForUpdate(resourceId: Id, change: ResourceChange)
    | CheckSchedule
    | LockForStatus(resourceId: Id, status: ResourceStatus)
    | CheckStatus
    | LockForClosure(resourceId: Id, date: WrittenDate, closure: Closure)
    | CheckClosure
    | ReadClosure(resourceId: Id, closureId: Id)
    | LockForDeletion
    | LockBooking(bookingId: Id, command: Lifecycle)
    | WriteBooking
    | Commit
    | Rollback
    | AddResource(newId: Id, draft: ResourceDraft)
    | ImportResource(newId: Id, row: ImportRow)
    | ImportClosure(resourceId: Id, day: int, closure: Closure)
    | CleanCatalog(codes: set<string>)

  /** The catalog upsert, which waits for the lock of the resource it finds. */
  ghost function Upserted(s: State, newId: Id, row: ImportRow): Database {
    var holder := Holder(s.db, row.code);
    if holder.Some? && !s.ResourceFree(holder.value) then s.db else ExecuteImportResource(s.db, newId, row, s.now).db
  }

  /** The day of the closure that `deleteClosure` reads before it takes the lock. */
  ghost function FoundDay(db: Database, id: Id, closureId: Id): Option<int> {
    match ClosureKey(db, id, closureId)
    case Some(key) => Some(key.1)
    case None => None
  }

  /** Deleting a resource waits for its lock. */
  ghost predicate CleanableFree(s: State, codes: set<string>) {
    forall id: Id :: Cleanable(s.db, codes, id) ==> s.ResourceFree(id)
  }

  /** The table lock of the import waits for uncommitted booking writes. */
  ghost predicate NoOpenWrites(s: State) {
    forall t :: t in s.txns ==> !HoldsWrite(s.txns[t])
  }

  /** The exclusion check waits for a transaction that has written a row in conflict: it may release the slot. */
  ghost predicate Awaited(s: State, row: Booking) {
    exists t :: t in s.txns && s.txns[t].RowWritten? && s.txns[t].bookingId in s.db.bookings
      && Conflict(s.db.bookings[s.txns[t].bookingId], row)
  }

  /** The tables once the transaction's write is committed. */
  function Committed(db: Database, x: Txn): Database {
    match x
    case CreateInserted(newId, row) => db.(bookings := db.bookings[newId := row])
    case UpdateChecked(id, change) =>
      if id in db.resources then db.(resources := db.resources[id := Changed(db.resources[id], change)]) else db
    case StatusChecked(id, status) =>
      if id in db.resources then db.(resources := db.resources[id := db.resources[id].(status := status)]) else db
    case ClosureChecked(id, day, closure) => db.(closures := db.closures[(id, day) := closure])
    case DeletionLocked(id, closureId, _) => WithoutClosure(db, id, closureId)
    case RowWritten(id, row) => db.(bookings := db.bookings[id := row])
    case _ => db
  }

  /** One step of transaction `t`; a step that is not enabled, or has to wait, changes nothing. */
  ghost function Step(s: State, t: nat, action: Action): State {
    match action
    case Tick(elapsed) => s.(now := s.now + elapsed)
    case BeginCreate(requesterId, request) =>
      if t in s.txns || RequestError(request, s.now).Some? then s else s.Put(t, CreateReady(requesterId, request))
    case LockForUpdate(id, change) =>
      if t in s.txns || id !in s.db.resources || !s.ResourceFree(id) then s else s.Put(t, UpdateLocked(id, change))
    case LockForStatus(id, status) =>
      if t in s.txns || id !in s.db.resources || !s.ResourceFree(id) then s else s.Put(t, StatusLocked(id, status))
    case LockForClosure(id, date, closure) =>
      if t in s.txns || !PassesDateCheck(date) || id !in s.db.resources || !s.ResourceFree(id) then s
      else s.Put(t, ClosureLocked(id, DayNumber(date), closure))
    case ReadClosure(id, closureId) =>
      if t in s.txns then s else s.Put(t, DeletionReady(id, closureId, FoundDay(s.db, id, closureId)))
    case LockBooking(id, command) =>
      if t in s.txns || id !in s.db.bookings || !s.BookingFree(id) then s else s.Put(t, RowLocked(id, command))
    case AddResource(newId, draft) => s.(db := ExecuteCreateResource(s.db, newId, draft, s.now).db)
    case ImportResource(newId, row) => if NoOpenWrites(s) then s.(db := Upserted(s, newId, row)) else s
    case ImportClosure(id, day, closure) =>
      if NoOpenWrites(s) && s.ResourceFree(id) then s.(db := ExecuteImportClosure(s.db, id, day, closure).db) else s
    case CleanCatalog(codes) =>
      if NoOpenWrites(s) && CleanableFree(s, codes) then s.(db := Cleaned(s.db, codes)) else s
    case _ => if t in s.txns then Continue(s, t, s.txns[t], action) else s
  }

  /** A step of an open transaction. */
  ghost function Continue(s: State, t: nat, x: Txn, action: Action): State {
    match (action, x)
    case (LockForCreate, CreateReady(requesterId, request)) =>
      var id := request.resourceId;
      if !s.ResourceFree(id) then s
      else if id !in s.db.resources then s.Drop(t)
      else if !Operational(s.db.resources[id], DayNumber(request.date), request.startHour, request.endHour) then
        s.Drop(t)
      else s.Put(t, CreateLocked(requesterId, request, s.db.resources[id]))
    case (FindClosure, CreateLocked(requesterId, request, r)) =>
      if s.db.Closed(request.resourceId, DayNumber(request.date)) then s.Drop(t)
      else s.Put(t, CreateOpen(requesterId, request, r))
    case (Insert(newId), CreateOpen(requesterId, request, r)) =>
      var row := NewBooking(r, requesterId, request, s.now);
      if !s.BookingFree(newId) then s
      else if newId in s.db.bookings then s.Drop(t)
      else if Awaited(s, row) then s
      else if Excluded(s.db, row) then s.Drop(t)
      else s.Put(t, CreateInserted(newId, row))
    case (CheckSchedule, UpdateLocked(id, change)) =>
      if id !in s.db.resources then s.Drop(t)
      else
        var r := s.db.resources[id];
        var after := Changed(r, change);
        if after.opensAt >= after.closesAt then s.Drop(t)
        else if ScheduleChanges(r, change) && ScheduleConflicts(s.db, id, after, s.now) != {} then s.Drop(t)
        else s.Put(t, UpdateChecked(id, change))
    case (CheckStatus, StatusLocked(id, status)) =>
      if status != Active && StatusConflicts(s.db, id, s.now) != {} then s.Drop(t)
      else s.Put(t, StatusChecked(id, status))
    case (CheckClosure, ClosureLocked(id, day, closure)) =>
      if ClosureConflicts(s.db, id, day, s.now) != {} then s.Drop(t)
      else if s.db.Closed(id, day) || HasClosureId(s.db, closure.id) then s.Drop(t)
      else s.Put(t, ClosureChecked(id, day, closure))
    case (LockForDeletion, DeletionReady(id, closureId, found)) =>
      if !s.ResourceFree(id) then s
      else if id !in s.db.resources then s.Drop(t)
      else s.Put(t, DeletionLocked(id, closureId, found))
    case (WriteBooking, RowLocked(id, command)) =>
      if id !in s.db.bookings then s.Drop(t)
      else
        (match Advance(s.db.bookings[id], command, s.now)
         case Err(_) => s.Drop(t)
         case Ok(row) => s.Put(t, RowWritten(id, row)))
    case (Commit, _) => s.Write(t, Committed(s.db, x))
    case (Rollback, _) => s.Drop(t)
    case _ => s
  }

  // ---------------------------------------------------------------- reports

  /** What a step tells the caller and publishes. */
  datatype Report = Report(failure: Option<Failure>, events: seq<Event>)

  const QUIET := Report(None, [])

  function Failed(failure: Failure): Report {
    Report(Some(failure), [])
  }

  /** What is published once the transaction's write is committed. */
  ghost function Published(db: Database, x: Txn): seq<Event> {
    match x
    case CreateInserted(_, row) => [AvailabilityChanged(row.resourceId, row.date)]
    case UpdateChecked(id, _) => [ResourceChanged(id)]
    case StatusChecked(id, _) => [ResourceChanged(id)]
    case ClosureChecked(id, day, _) => [AvailabilityChanged(id, day)]
    case DeletionLocked(id, closureId, found) =>
      if ClosureKey(db, id, closureId).Some? && found.Some? then [AvailabilityChanged(id, found.value)] else []
    case RowWritten(id, row) =>
      if id in db.bookings && row.status != db.bookings[id].status && row.status != CheckedIn
      then [AvailabilityChanged(row.resourceId, row.date)]
      else []
    case _ => []
  }

  /** The report of the step that `Step` takes. */
  ghost function Reported(s: State, t: nat, action: Action): Report {
    match action
    case BeginCreate(_, request) =>
      var invalid := RequestError(request, s.now);
      if t !in s.txns && invalid.Some? then Failed(Domain(invalid.value)) else QUIET
    case LockForUpdate(id, _) => if t !in s.txns && id !in s.db.resources then Failed(UnknownResource) else QUIET
    case LockForStatus(id, _) => if t !in s.txns && id !in s.db.resources then Failed(UnknownResource) else QUIET
    case LockForClosure(id, date, _) =>
      if t in s.txns then QUIET
      else if !PassesDateCheck(date) then Failed(InvalidAvailabilityDate)
      else if id !in s.db.resources then Failed(UnknownResource)
      else QUIET
    case LockBooking(id, _) => if t !in s.txns && id !in s.db.bookings then Failed(Domain(BookingNotFound)) else QUIET
    case AddResource(newId, draft) =>
      var out := ExecuteCreateResource(s.db, newId, draft, s.now);
      Report(out.failure, out.events)
    case ImportResource(newId, row) =>
      var out := ExecuteImportResource(s.db, newId, row, s.now);
      Report(out.failure, out.events)
    case ImportClosure(id, day, closure) =>
      var out := ExecuteImportClosure(s.db, id, day, closure);
      Report(out.failure, out.events)
    case CleanCatalog(_) => QUIET
    case _ => if t in s.txns then ReportOf(s, s.txns[t], action) else QUIET
  }

  /** The report of a step of an open transaction. */
  ghost function ReportOf(s: State, x: Txn, action: Action): Report {
    match (action, x)
    case (LockForCreate, CreateReady(_, request)) =>
      if !s.ResourceFree(request.resourceId) then QUIET
      else if request.resourceId !in s.db.resources then Failed(Domain(Error.ResourceNotFound))
      else if !Operational(s.db.resources[request.resourceId], DayNumber(request.date), request.startHour,
                           request.endHour)
      then Failed(Domain(ResourceUnavailable))
      else QUIET
    case (FindClosure, CreateLocked(_, request, _)) =>
      if s.db.Closed(request.resourceId, DayNumber(request.date)) then Failed(Domain(ResourceUnavailable)) else QUIET
    case (Insert(newId), CreateOpen(requesterId, request, r)) =>
      if !s.BookingFree(newId) then QUIET
      else if newId in s.db.bookings then Failed(DuplicateKey)
      else if Awaited(s, NewBooking(r, requesterId, request, s.now)) then QUIET
      else if Excluded(s.db, NewBooking(r, requesterId, request, s.now)) then Failed(Domain(BookingOverlap))
      else QUIET
    case (CheckSchedule, UpdateLocked(id, change)) =>
      if id !in s.db.resources then Failed(UnknownResource)
      else
        var r := s.db.resources[id];
        var after := Changed(r, change);
        var conflicts := ScheduleConflicts(s.db, id, after, s.now);
        if after.opensAt >= after.closesAt then Failed(InvalidOperatingHours)
        else if ScheduleChanges(r, change) && conflicts != {} then Failed(HasActiveBookings(|conflicts|))
        else QUIET
    case (CheckStatus, StatusLocked(id, status)) =>
      var conflicts := StatusConflicts(s.db, id, s.now);
      if status != Active && conflicts != {} then Failed(HasActiveBookings(|conflicts|)) else QUIET
    case (CheckClosure, ClosureLocked(id, day, closure)) =>
      var conflicts := ClosureConflicts(s.db, id, day, s.now);
      if conflicts != {} then Failed(HasActiveBookings(|conflicts|))
      else if s.db.Closed(id, day) then Failed(ClosureAlreadyExists)
      else if HasClosureId(s.db, closure.id) then Failed(DuplicateKey)
      else QUIET
    case (LockForDeletion, DeletionReady(id, _, _)) =>
      if s.ResourceFree(id) && id !in s.db.resources then Failed(UnknownResource) else QUIET
    case (WriteBooking, RowLocked(id, command)) =>
      if id !in s.db.bookings then Failed(Domain(BookingNotFound))
      else
        (match Advance(s.db.bookings[id], command, s.now)
         case Err(error) => Failed(Domain(error))
         case Ok(_) => QUIET)
    case (Commit, DeletionLocked(id, closureId, _)) =>
      if ClosureKey(s.db, id, closureId).None? then Failed(ClosureNotFound) else Report(None, Published(s.db, x))
    case (Commit, _) => Report(None, Published(s.db, x))
    case _ => QUIET
  }

  // -------------------------------------------------------------- invariant

  ghost predicate TablesSound(db: Database, now: int) {
    ResourcesSound(db) && RowsSound(db, now) && NoneStranded(db, now) && NoDoubleBooking(db)
  }

  ghost predicate LocksExclusive(txns: map<nat, Txn>) {
    forall t, u :: t in txns && u in txns && t != u ==>
      (ResourceHeld(txns[t]).Some? ==> ResourceHeld(txns[t]) != ResourceHeld(txns[u]))
      && (BookingHeld(txns[t]).Some? ==> BookingHeld(txns[t]) != BookingHeld(txns[u]))
  }

  /** Every reviewable booking of the resource that has not ended fits the schedule of `after`. */
  ghost predicate FitsSchedule(db: Database, resourceId: Id, after: Resource, now: int) {
    forall id :: id in db.bookings && db.bookings[id].resourceId == resourceId && db.bookings[id].Reviewable()
      && now < db.bookings[id].EndMs()
      ==> InSchedule(after, db.bookings[id].date, db.bookings[id].startHour, db.bookings[id].endHour)
  }

  /** Every booking of the resource that holds its slot has ended. */
  ghost predicate Unheld(db: Database, resourceId: Id, now: int) {
    forall id :: id in db.bookings && db.bookings[id].resourceId == resourceId && db.bookings[id].Blocking() ==>
      db.bookings[id].EndMs() <= now
  }

  ghost predicate UnheldOn(db: Database, resourceId: Id, day: int, now: int) {
    forall id :: db.Blocks(id, resourceId, day) ==> db.bookings[id].EndMs() <= now
  }

  /** What an open transaction relies on when it takes its next step. */
  ghost predicate TxnSound(db: Database, now: int, x: Txn) {
    match x
    case CreateReady(_, request) => WellFormed(request)
    case CreateLocked(_, request, r) => WellFormed(request) && Reserved(db, request, r)
    case CreateOpen(_, request, r) =>
      WellFormed(request) && Reserved(db, request, r) && !db.Closed(request.resourceId, DayNumber(request.date))
    case CreateInserted(newId, row) =>
      newId !in db.bookings && SoundRow(row, now) && NotStranded(db, row, now)
      && forall id :: id in db.bookings ==> !Conflict(db.bookings[id], row)
    case UpdateLocked(id, _) => id in db.resources
    case UpdateChecked(id, change) =>
      id in db.resources
      && ResourceChecks(Changed(db.resources[id], change))
      && (ScheduleChanges(db.resources[id], change) ==> FitsSchedule(db, id, Changed(db.resources[id], change), now))
    case StatusLocked(id, _) => id in db.resources
    case StatusChecked(id, status) => id in db.resources && (status != Active ==> Unheld(db, id, now))
    case ClosureLocked(id, _, _) => id in db.resources
    case ClosureChecked(id, day, _) => id in db.resources && UnheldOn(db, id, day, now)
    case DeletionReady(_, _, _) => true
    case DeletionLocked(id, _, _) => id in db.resources
    case RowLocked(id, _) => id in db.bookings
    case RowWritten(id, row) =>
      id in db.bookings && SoundRow(row, now) && Releases(db.bookings[id], row)
        && Remaining(row) < Remaining(db.bookings[id])
  }

  predicate WellFormed(request: BookingRequest) {
    PassesDateCheck(request.date) && request.startHour < request.endHour
  }

  /** The locked resource row still reads as it did, and admits the request. */
  predicate Reserved(db: Database, request: BookingRequest, r: Resource) {
    request.resourceId in db.resources && db.resources[request.resourceId] == r && ResourceChecks(r)
    && Operational(r, DayNumber(request.date), request.startHour, request.endHour)
  }

  ghost predicate Inv(s: State) {
    TablesSound(s.db, s.now) && LocksExclusive(s.txns) && forall t :: t in s.txns ==> TxnSound(s.db, s.now, s.txns[t])
  }
}
