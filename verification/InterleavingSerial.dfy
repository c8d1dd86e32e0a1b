/**
 * A transaction that runs without interruption is its atomic form: the same tables, the same failure,
 * the same events.
 */
module InterleavingSerial {
  import opened Bookings
  import opened Calendar
  import opened Campus
  import opened Interleaving
  import opened InterleavingResults
  import opened Resources
  import opened Wrappers

  /** The steps a service transaction takes. */
  function Script(command: Command): seq<Action> {
    match command
    case CreateBooking(requesterId, request, newId) =>
      [BeginCreate(requesterId, request), LockForCreate, FindClosure, Insert(newId), Commit]
    case Progress(id, lifecycle) => [LockBooking(id, lifecycle), WriteBooking, Commit]
    case CreateResource(newId, draft) => [AddResource(newId, draft)]
    case UpdateResource(id, change) => [LockForUpdate(id, change), CheckSchedule, Commit]
    case UpdateStatus(id, status) => [LockForStatus(id, status), CheckStatus, Commit]
    case CreateClosure(id, date, closure) => [LockForClosure(id, date, closure), CheckClosure, Commit]
    case DeleteClosure(id, closureId) => [ReadClosure(id, closureId), LockForDeletion, Commit]
    case ImportResource(newId, row) => [Action.ImportResource(newId, row)]
    case ImportClosure(id, day, closure) => [Action.ImportClosure(id, day, closure)]
    case CleanCatalog(codes) => [Action.CleanCatalog(codes)]
  }

  /** Where a transaction leaves the system, and what it reported on the way. */
  datatype Trace = Trace(state: State, report: Report)

  /** A report followed by another: the first failure, and all events. */
  function Then(a: Report, b: Report): Report {
    Report(if a.failure.Some? then a.failure else b.failure, a.events + b.events)
  }

  /** One transaction taking its steps with nothing in between. */
  ghost function Alone(s: State, t: nat, actions: seq<Action>): Trace
    decreases actions
  {
    if actions == [] then Trace(s, QUIET)
    else
      var rest := Alone(Step(s, t, actions[0]), t, actions[1..]);
      Trace(rest.state, Then(Reported(s, t, actions[0]), rest.report))
  }

  lemma AloneFirst(s: State, t: nat, a: Action, rest: seq<Action>)
    ensures Alone(s, t, [a] + rest)
         == Trace(Alone(Step(s, t, a), t, rest).state, Then(Reported(s, t, a), Alone(Step(s, t, a), t, rest).report))
  {
    assert ([a] + rest)[1..] == rest;
  }

  lemma QuietThen(r: Report)
    ensures Then(QUIET, r) == r
    ensures Then(r, QUIET) == r
  {
    assert [] + r.events == r.events && r.events + [] == r.events;
  }

  /** The steps of an open transaction do nothing when there is none. */
  lemma {:induction false} NothingLeft(s: State, t: nat, actions: seq<Action>)
    requires t !in s.txns && forall i :: 0 <= i < |actions| ==> Continues(actions[i])
    ensures Alone(s, t, actions) == Trace(s, QUIET)
    decreases actions
  {
    hide Step, Reported, Continues;
    if actions != [] {
      NothingContinues(s, t, actions[0]);
      NothingReported(s, t, actions[0]);
      NothingLeft(s, t, actions[1..]);
      QuietThen(QUIET);
    }
  }

  lemma NothingReported(s: State, t: nat, action: Action)
    requires t !in s.txns && Continues(action)
    ensures Reported(s, t, action) == QUIET
  {
  }

  /** A first step that opens the transaction, or ends it with a failure. */
  lemma OpenOrFail(s: State, t: nat, a: Action, rest: seq<Action>, x: Txn, failure: Option<Failure>)
    requires s.txns == map[]
    requires Step(s, t, a) == if failure.None? then s.Put(t, x) else s
    requires Reported(s, t, a) == Report(failure, [])
    requires forall i :: 0 <= i < |rest| ==> Continues(rest[i])
    ensures Alone(s, t, [a] + rest)
         == if failure.None? then Alone(s.Put(t, x), t, rest) else Trace(s, Report(failure, []))
  {
    hide Step, Reported, Continues, Alone;
    AloneFirst(s, t, a, rest);
    if failure.None? {
      QuietThen(Alone(s.Put(t, x), t, rest).report);
    } else {
      NothingLeft(s, t, rest);
      QuietThen(Report(failure, []));
    }
  }

  /** A step from one phase to the next, or to the end with a failure. */
  lemma GoOnOrFail(s: State, t: nat, x: Txn, a: Action, rest: seq<Action>, y: Txn, failure: Option<Failure>)
    requires s.txns == map[] && Continues(a)
    requires Continue(s.Put(t, x), t, x, a) == if failure.None? then s.Put(t, x).Put(t, y) else s.Put(t, x).Drop(t)
    requires ReportOf(s.Put(t, x), x, a) == Report(failure, [])
    requires forall i :: 0 <= i < |rest| ==> Continues(rest[i])
    ensures Alone(s.Put(t, x), t, [a] + rest)
         == if failure.None? then Alone(s.Put(t, y), t, rest) else Trace(s, Report(failure, []))
  {
    var open := s.Put(t, x);
    assert open.Put(t, y) == s.Put(t, y) && open.Drop(t) == s;
    StepContinues(open, t, a);
    ReportContinues(open, t, a);
    hide Continues, Continue, ReportOf, Step, Reported, Alone;
    AloneFirst(open, t, a, rest);
    if failure.None? {
      QuietThen(Alone(s.Put(t, y), t, rest).report);
    } else {
      NothingLeft(s, t, rest);
      QuietThen(Report(failure, []));
    }
  }

  lemma ReportContinues(s: State, t: nat, action: Action)
    requires t in s.txns && Continues(action)
    ensures Reported(s, t, action) == ReportOf(s, s.txns[t], action)
  {
    hide ReportOf;
  }

  /** The commit of the last phase. */
  lemma CommitAlone(s: State, t: nat, x: Txn)
    requires s.txns == map[] && !x.DeletionLocked?
    ensures Alone(s.Put(t, x), t, [Commit]) == Trace(s.(db := Committed(s.db, x)), Report(None, Published(s.db, x)))
  {
    var open := s.Put(t, x);
    CommitOf(open, t);
    ReportContinues(open, t, Commit);
    assert open.txns - {t} == map[];
    hide Committed, Published, Step, Reported;
    AloneLast(open, t, Commit);
  }

  lemma AloneLast(s: State, t: nat, a: Action)
    ensures Alone(s, t, [a]) == Trace(Step(s, t, a), Reported(s, t, a))
  {
    hide Step, Reported;
    assert [a][1..] == [];
    QuietThen(Reported(s, t, a));
  }

  /** The outcome of an atomic command as a trace. */
  function TraceOf(s: State, out: Outcome): Trace {
    Trace(s.(db := out.db), Report(out.failure, out.events))
  }

  function FailureIf(fails: bool, failure: Failure): Option<Failure> {
    if fails then Some(failure) else None
  }

  // ---------------------------------------------------------------- commands

  lemma AloneCreate(s: State, t: nat, requesterId: Id, request: BookingRequest, newId: Id)
    requires s.txns == map[]
    ensures Alone(s, t, Script(CreateBooking(requesterId, request, newId)))
         == TraceOf(s, ExecuteCreate(s.db, requesterId, request, newId, s.now))
  {
    hide Alone, DayNumber, RequestError, Operational;
    var begin := BeginCreate(requesterId, request);
    var invalid := RequestError(request, s.now);
    var failure := if invalid.Some? then Some(Domain(invalid.value)) else None;
    OpenOrFail(s, t, begin, [LockForCreate, FindClosure, Insert(newId), Commit], CreateReady(requesterId, request),
               failure);
    assert Script(CreateBooking(requesterId, request, newId))
           == [begin] + [LockForCreate, FindClosure, Insert(newId), Commit];
    hide Step, Reported, Continue, ReportOf;
    if invalid.None? {
      AloneReady(s, t, requesterId, request, newId);
    }
  }

  lemma AloneReady(s: State, t: nat, requesterId: Id, request: BookingRequest, newId: Id)
    requires s.txns == map[] && RequestError(request, s.now).None?
    ensures Alone(s.Put(t, CreateReady(requesterId, request)), t, [LockForCreate, FindClosure, Insert(newId), Commit])
         == TraceOf(s, ExecuteCreate(s.db, requesterId, request, newId, s.now))
  {
    hide Alone, DayNumber, RequestError, Operational, NewBooking, Excluded;
    var id, day := request.resourceId, DayNumber(request.date);
    var ready, rest := CreateReady(requesterId, request), [FindClosure, Insert(newId), Commit];
    assert [LockForCreate, FindClosure, Insert(newId), Commit] == [LockForCreate] + rest;
    if id !in s.db.resources {
      GoOnOrFail(s, t, ready, LockForCreate, rest, ready, Some(Domain(Error.ResourceNotFound)));
    } else {
      var r := s.db.resources[id];
      var failure := FailureIf(!Operational(r, day, request.startHour, request.endHour), Domain(ResourceUnavailable));
      GoOnOrFail(s, t, ready, LockForCreate, rest, CreateLocked(requesterId, request, r), failure);
      hide Step, Reported, Continue, ReportOf;
      if failure.None? {
        AloneLocked(s, t, requesterId, request, newId);
      }
    }
  }

  lemma AloneLocked(s: State, t: nat, requesterId: Id, request: BookingRequest, newId: Id)
    requires s.txns == map[] && RequestError(request, s.now).None? && request.resourceId in s.db.resources
    requires Operational(s.db.resources[request.resourceId], DayNumber(request.date), request.startHour,
                         request.endHour)
    ensures Alone(s.Put(t, CreateLocked(requesterId, request, s.db.resources[request.resourceId])), t,
                  [FindClosure, Insert(newId), Commit])
         == TraceOf(s, ExecuteCreate(s.db, requesterId, request, newId, s.now))
  {
    hide Alone, DayNumber, RequestError, Operational, NewBooking, Excluded;
    var id, day := request.resourceId, DayNumber(request.date);
    var r := s.db.resources[id];
    var row := NewBooking(r, requesterId, request, s.now);
    NewBookingPlace(r, requesterId, request, s.now);
    var closed := FailureIf(s.db.Closed(id, day), Domain(ResourceUnavailable));
    var refused := if newId in s.db.bookings then Some(DuplicateKey)
                   else FailureIf(Excluded(s.db, row), Domain(BookingOverlap));
    var locked, open := CreateLocked(requesterId, request, r), CreateOpen(requesterId, request, r);
    GoOnOrFail(s, t, locked, FindClosure, [Insert(newId), Commit], open, closed);
    GoOnOrFail(s, t, open, Insert(newId), [Commit], CreateInserted(newId, row), refused);
    CommitAlone(s, t, CreateInserted(newId, row));
    hide Step, Reported, Continue, ReportOf;
    assert [FindClosure, Insert(newId), Commit] == [FindClosure] + [Insert(newId), Commit];
    assert [Insert(newId), Commit] == [Insert(newId)] + [Commit];
  }

  lemma NewBookingPlace(r: Resource, requesterId: Id, request: BookingRequest, now: int)
    ensures var row := NewBooking(r, requesterId, request, now);
            row.resourceId == request.resourceId && row.date == DayNumber(request.date)
  {
  }

  /** A command publishes exactly when it changes the status to something else than checked in. */
  lemma PublishesByStatus(b: Booking, command: Lifecycle, now: int)
    ensures var r := Advance(b, command, now);
            r.Ok? ==> (Publishes(command) <==> r.value.status != b.status && r.value.status != CheckedIn)
                      && r.value.resourceId == b.resourceId && r.value.date == b.date
  {
  }

  lemma AloneProgress(s: State, t: nat, id: Id, lifecycle: Lifecycle)
    requires s.txns == map[]
    ensures Alone(s, t, Script(Progress(id, lifecycle))) == TraceOf(s, ExecuteProgress(s.db, id, lifecycle, s.now))
  {
    hide Alone, Advance, Publishes;
    var missing := FailureIf(id !in s.db.bookings, Domain(BookingNotFound));
    OpenOrFail(s, t, LockBooking(id, lifecycle), [WriteBooking, Commit], RowLocked(id, lifecycle), missing);
    assert Script(Progress(id, lifecycle)) == [LockBooking(id, lifecycle)] + [WriteBooking, Commit];
    hide Step, Reported, Continue, ReportOf;
    if id in s.db.bookings {
      AloneWrite(s, t, id, lifecycle);
    }
  }

  lemma AloneWrite(s: State, t: nat, id: Id, lifecycle: Lifecycle)
    requires s.txns == map[] && id in s.db.bookings
    ensures Alone(s.Put(t, RowLocked(id, lifecycle)), t, [WriteBooking, Commit])
         == TraceOf(s, ExecuteProgress(s.db, id, lifecycle, s.now))
  {
    hide Alone, Advance, Publishes;
    assert [WriteBooking, Commit] == [WriteBooking] + [Commit];
    PublishesByStatus(s.db.bookings[id], lifecycle, s.now);
    match Advance(s.db.bookings[id], lifecycle, s.now)
    case Err(error) =>
      GoOnOrFail(s, t, RowLocked(id, lifecycle), WriteBooking, [Commit], RowLocked(id, lifecycle), Some(Domain(error)));
    case Ok(row) =>
      GoOnOrFail(s, t, RowLocked(id, lifecycle), WriteBooking, [Commit], RowWritten(id, row), None);
      CommitAlone(s, t, RowWritten(id, row));
  }

  lemma AloneUpdate(s: State, t: nat, id: Id, change: ResourceChange)
    requires s.txns == map[]
    ensures Alone(s, t, Script(UpdateResource(id, change)))
            == TraceOf(s, ExecuteUpdateResource(s.db, id, change, s.now))
  {
    hide Alone, ScheduleConflicts, Changed, ScheduleChanges;
    var missing := FailureIf(id !in s.db.resources, UnknownResource);
    OpenOrFail(s, t, LockForUpdate(id, change), [CheckSchedule, Commit], UpdateLocked(id, change), missing);
    assert Script(UpdateResource(id, change)) == [LockForUpdate(id, change)] + [CheckSchedule, Commit];
    assert [CheckSchedule, Commit] == [CheckSchedule] + [Commit];
    if id in s.db.resources {
      var after := Changed(s.db.resources[id], change);
      var conflicts := ScheduleConflicts(s.db, id, after, s.now);
      var refused := if after.opensAt >= after.closesAt then Some(InvalidOperatingHours)
                     else FailureIf(ScheduleChanges(s.db.resources[id], change) && conflicts != {},
                                    HasActiveBookings(|conflicts|));
      GoOnOrFail(s, t, UpdateLocked(id, change), CheckSchedule, [Commit], UpdateChecked(id, change), refused);
      CommitAlone(s, t, UpdateChecked(id, change));
    }
  }

  lemma AloneStatus(s: State, t: nat, id: Id, status: ResourceStatus)
    requires s.txns == map[]
    ensures Alone(s, t, Script(UpdateStatus(id, status))) == TraceOf(s, ExecuteUpdateStatus(s.db, id, status, s.now))
  {
    hide Alone, StatusConflicts;
    var missing := FailureIf(id !in s.db.resources, UnknownResource);
    OpenOrFail(s, t, LockForStatus(id, status), [CheckStatus, Commit], StatusLocked(id, status), missing);
    assert Script(UpdateStatus(id, status)) == [LockForStatus(id, status)] + [CheckStatus, Commit];
    hide Step, Reported, Continue, ReportOf;
    if id in s.db.resources {
      AloneSetStatus(s, t, id, status);
    }
  }

  lemma AloneSetStatus(s: State, t: nat, id: Id, status: ResourceStatus)
    requires s.txns == map[] && id in s.db.resources
    ensures Alone(s.Put(t, StatusLocked(id, status)), t, [CheckStatus, Commit])
         == TraceOf(s, ExecuteUpdateStatus(s.db, id, status, s.now))
  {
    hide Alone, StatusConflicts;
    var conflicts := StatusConflicts(s.db, id, s.now);
    var held := FailureIf(status != Active && conflicts != {}, HasActiveBookings(|conflicts|));
    assert [CheckStatus, Commit] == [CheckStatus] + [Commit];
    GoOnOrFail(s, t, StatusLocked(id, status), CheckStatus, [Commit], StatusChecked(id, status), held);
    hide Continue, ReportOf;
    CommitAlone(s, t, StatusChecked(id, status));
  }

  lemma AloneClosure(s: State, t: nat, id: Id, date: WrittenDate, closure: Closure)
    requires s.txns == map[]
    ensures Alone(s, t, Script(CreateClosure(id, date, closure)))
         == TraceOf(s, ExecuteCreateClosure(s.db, id, date, closure, s.now))
  {
    hide Alone, ClosureConflicts, PassesDateCheck, DayNumber, HasClosureId;
    var missing := if !PassesDateCheck(date) then Some(InvalidAvailabilityDate)
                   else FailureIf(id !in s.db.resources, UnknownResource);
    OpenOrFail(s, t, LockForClosure(id, date, closure), [CheckClosure, Commit],
               ClosureLocked(id, DayNumber(date), closure), missing);
    assert Script(CreateClosure(id, date, closure)) == [LockForClosure(id, date, closure)] + [CheckClosure, Commit];
    hide Step, Reported, Continue, ReportOf;
    if missing.None? {
      AloneClose(s, t, id, date, closure);
    }
  }

  lemma AloneClose(s: State, t: nat, id: Id, date: WrittenDate, closure: Closure)
    requires s.txns == map[] && PassesDateCheck(date) && id in s.db.resources
    ensures Alone(s.Put(t, ClosureLocked(id, DayNumber(date), closure)), t, [CheckClosure, Commit])
         == TraceOf(s, ExecuteCreateClosure(s.db, id, date, closure, s.now))
  {
    hide Alone, ClosureConflicts, PassesDateCheck, DayNumber, HasClosureId;
    var day := DayNumber(date);
    var conflicts := ClosureConflicts(s.db, id, day, s.now);
    var refused := if conflicts != {} then Some(HasActiveBookings(|conflicts|))
                   else if s.db.Closed(id, day) then Some(ClosureAlreadyExists)
                   else FailureIf(HasClosureId(s.db, closure.id), DuplicateKey);
    assert [CheckClosure, Commit] == [CheckClosure] + [Commit];
    GoOnOrFail(s, t, ClosureLocked(id, day, closure), CheckClosure, [Commit], ClosureChecked(id, day, closure),
               refused);
    hide Continue, ReportOf;
    CommitAlone(s, t, ClosureChecked(id, day, closure));
  }

  lemma AloneDeletion(s: State, t: nat, id: Id, closureId: Id)
    requires s.txns == map[]
    ensures Alone(s, t, Script(DeleteClosure(id, closureId))) == TraceOf(s, ExecuteDeleteClosure(s.db, id, closureId))
  {
    hide Alone, ClosureKey;
    var found := FoundDay(s.db, id, closureId);
    var ready := DeletionReady(id, closureId, found);
    OpenOrFail(s, t, ReadClosure(id, closureId), [LockForDeletion, Commit], ready, None);
    assert Script(DeleteClosure(id, closureId)) == [ReadClosure(id, closureId)] + [LockForDeletion, Commit];
    assert [LockForDeletion, Commit] == [LockForDeletion] + [Commit];
    var missing := FailureIf(id !in s.db.resources, UnknownResource);
    GoOnOrFail(s, t, ready, LockForDeletion, [Commit], DeletionLocked(id, closureId, found), missing);
    hide Step, Reported, Continue, ReportOf;
    if id in s.db.resources {
      AloneDelete(s, t, id, closureId);
    }
  }

  lemma AloneDelete(s: State, t: nat, id: Id, closureId: Id)
    requires s.txns == map[] && id in s.db.resources
    ensures Alone(s.Put(t, DeletionLocked(id, closureId, FoundDay(s.db, id, closureId))), t, [Commit])
            == TraceOf(s, ExecuteDeleteClosure(s.db, id, closureId))
  {
    var open := s.Put(t, DeletionLocked(id, closureId, FoundDay(s.db, id, closureId)));
    CommitOf(open, t);
    ReportContinues(open, t, Commit);
    AloneLast(open, t, Commit);
    assert open.txns - {t} == map[];
    hide Alone, Step, Reported, ClosureKey, WithoutClosure;
    if ClosureKey(s.db, id, closureId).None? {
      NothingToDelete(s.db, id, closureId);
    }
  }

  lemma NothingToDelete(db: Database, id: Id, closureId: Id)
    requires ClosureKey(db, id, closureId).None?
    ensures WithoutClosure(db, id, closureId) == db
  {
    assert forall k: (Id, int) :: !IsClosure(db, id, closureId, k);
    assert (map k | k in db.closures && !IsClosure(db, id, closureId, k) :: db.closures[k]) == db.closures;
  }

  /** The commands of one step. */
  predicate OneStep(command: Command) {
    command.CreateResource? || command.ImportResource? || command.ImportClosure? || command.CleanCatalog?
  }

  lemma AloneOneStep(s: State, t: nat, command: Command)
    requires s.txns == map[] && OneStep(command)
    ensures Alone(s, t, Script(command)) == TraceOf(s, Execute(s.db, command, s.now))
  {
    hide ExecuteCreateResource, ExecuteImportResource, ExecuteImportClosure, Cleaned, Cleanable;
    AloneLast(s, t, Script(command)[0]);
    assert Script(command) == [Script(command)[0]];
    OneStepEffect(s, t, command);
  }

  lemma OneStepEffect(s: State, t: nat, command: Command)
    requires s.txns == map[] && OneStep(command)
    ensures var a := Script(command)[0];
            Trace(Step(s, t, a), Reported(s, t, a)) == TraceOf(s, Execute(s.db, command, s.now))
  {
    hide ExecuteCreateResource, ExecuteImportResource, ExecuteImportClosure, Cleaned, Cleanable;
  }

  /**
   * Uninterrupted, the steps of a transaction have exactly the effect of its atomic form, down to
   * failure and events.
   */
  lemma AloneIsAtomic(s: State, t: nat, command: Command)
    requires s.txns == map[]
    ensures Alone(s, t, Script(command)) == TraceOf(s, Execute(s.db, command, s.now))
  {
    hide Alone, Script, TraceOf, ExecuteCreate, ExecuteProgress, ExecuteUpdateResource, ExecuteUpdateStatus,
      ExecuteCreateClosure, ExecuteDeleteClosure;
    match command
    case CreateBooking(requesterId, request, newId) => AloneCreate(s, t, requesterId, request, newId);
    case Progress(id, lifecycle) => AloneProgress(s, t, id, lifecycle);
    case UpdateResource(id, change) => AloneUpdate(s, t, id, change);
    case UpdateStatus(id, status) => AloneStatus(s, t, id, status);
    case CreateClosure(id, date, closure) => AloneClosure(s, t, id, date, closure);
    case DeleteClosure(id, closureId) => AloneDeletion(s, t, id, closureId);
    case _ => AloneOneStep(s, t, command);
  }
}
