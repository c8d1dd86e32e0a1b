/** Every state of every interleaving is sound: nobody stranded, nothing double-booked, no constraint broken. */
module InterleavingSafety {
  import opened Bookings
  import opened Calendar
  import opened Campus
  import opened CampusClock
  import opened CampusInvariants
  import opened Interleaving
  import opened Resources
  import opened Wrappers

  // ------------------------------------------------------ stability of others

  /**
   * From `a` to `b` nothing moved that a transaction with these locks relies
   * on: its resource and closures, its booking, and on its resource bookings
   * only released hours.
   */
  ghost predicate Frame(x: Txn, a: Database, b: Database) {
    (ResourceHeld(x).Some? ==> ResourceKept(ResourceHeld(x).value, a, b))
    && (BookingHeld(x).Some? ==> BookingKept(BookingHeld(x).value, a, b))
  }

  ghost predicate ResourceKept(id: Id, a: Database, b: Database) {
    (id in a.resources ==> id in b.resources && a.resources[id] == b.resources[id])
    && (forall day :: a.Closed(id, day) <==> b.Closed(id, day))
    && forall other :: other in b.bookings && b.bookings[other].resourceId == id ==>
      other in a.bookings && Releases(a.bookings[other], b.bookings[other])
  }

  ghost predicate BookingKept(id: Id, a: Database, b: Database) {
    (id in a.bookings <==> id in b.bookings) && (id in a.bookings ==> a.bookings[id] == b.bookings[id])
  }

  lemma FrameReflexive(x: Txn, db: Database)
    ensures Frame(x, db, db)
  {
  }

  lemma SoundRowLater(b: Booking, now: int, later: int)
    requires SoundRow(b, now) && now <= later
    ensures SoundRow(b, later)
  {
  }

  lemma InsertedStaysApart(a: Database, b: Database, row: Booking)
    requires ResourceKept(row.resourceId, a, b)
    requires forall id :: id in a.bookings ==> !Conflict(a.bookings[id], row)
    ensures forall id :: id in b.bookings ==> !Conflict(b.bookings[id], row)
  {
  }

  /** What a transaction relies on survives other transactions and the passing of time. */
  lemma FrameKeepsTxnSound(x: Txn, a: Database, b: Database, now: int, later: int)
    requires TxnSound(a, now, x) && Frame(x, a, b) && now <= later
    ensures TxnSound(b, later, x)
  {
    hide SatisfiesChecks, Conflict, PassesDateCheck, DayNumber;
    match x
    case CreateInserted(newId, row) =>
      InsertedStaysApart(a, b, row);
      SoundRowLater(row, now, later);
    case RowWritten(id, row) => SoundRowLater(row, now, later);
    case _ =>
  }

  // -------------------------------------------------------- writes to tables

  /** Writing one row that fits the tables. */
  lemma PutRow(db: Database, id: Id, row: Booking, now: int)
    requires TablesSound(db, now) && SoundRow(row, now) && NotStranded(db, row, now)
    requires forall other :: other in db.bookings && other != id ==>
               !Conflict(db.bookings[other], row) && !Conflict(row, db.bookings[other])
    ensures TablesSound(db.(bookings := db.bookings[id := row]), now)
  {
  }

  lemma TablesSoundLater(db: Database, now: int, later: int)
    requires TablesSound(db, now) && now <= later
    ensures TablesSound(db, later)
  {
  }

  lemma CommitInsertedSound(db: Database, newId: Id, row: Booking, now: int)
    requires TablesSound(db, now) && TxnSound(db, now, CreateInserted(newId, row))
    ensures TablesSound(db.(bookings := db.bookings[newId := row]), now)
  {
  }

  lemma CommitWrittenSound(db: Database, id: Id, row: Booking, now: int)
    requires TablesSound(db, now) && TxnSound(db, now, RowWritten(id, row))
    ensures TablesSound(db.(bookings := db.bookings[id := row]), now)
    ensures forall other :: other in db.bookings && other != id ==> !Conflict(db.bookings[other], row)
  {
    hide SoundRow;
    var before := db.bookings[id];
    assert NotStranded(db, before, now);
    ReleasedStaysTenable(db.resources[before.resourceId], db.Closed(before.resourceId, before.date), before, row, now);
    forall other | other in db.bookings && other != id
      ensures !Conflict(db.bookings[other], row) && !Conflict(row, db.bookings[other])
    {
      ReleasedStaysApart(before, row, db.bookings[other]);
    }
    PutRow(db, id, row, now);
  }

  lemma CommitUpdateSound(db: Database, id: Id, change: ResourceChange, now: int)
    requires TablesSound(db, now) && TxnSound(db, now, UpdateChecked(id, change))
    ensures TablesSound(Committed(db, UpdateChecked(id, change)), now)
  {
    hide SoundRow, Conflict;
    var after := Committed(db, UpdateChecked(id, change));
    forall other | other in db.bookings
      ensures NotStranded(after, db.bookings[other], now)
    {
      assert NotStranded(db, db.bookings[other], now);
    }
  }

  lemma CommitStatusSound(db: Database, id: Id, status: ResourceStatus, now: int)
    requires TablesSound(db, now) && TxnSound(db, now, StatusChecked(id, status))
    ensures TablesSound(Committed(db, StatusChecked(id, status)), now)
  {
  }

  lemma AddClosureSound(db: Database, id: Id, day: int, closure: Closure, now: int)
    requires TablesSound(db, now) && UnheldOn(db, id, day, now)
    ensures TablesSound(db.(closures := db.closures[(id, day) := closure]), now)
  {
  }

  lemma DeleteClosureSound(db: Database, id: Id, closureId: Id, now: int)
    requires TablesSound(db, now)
    ensures TablesSound(WithoutClosure(db, id, closureId), now)
  {
  }

  lemma CommitKeepsTables(db: Database, x: Txn, now: int)
    requires TablesSound(db, now) && TxnSound(db, now, x)
    ensures TablesSound(Committed(db, x), now)
  {
    match x
    case CreateInserted(newId, row) => CommitInsertedSound(db, newId, row, now);
    case UpdateChecked(id, change) => CommitUpdateSound(db, id, change, now);
    case StatusChecked(id, status) => CommitStatusSound(db, id, status, now);
    case ClosureChecked(id, day, closure) => AddClosureSound(db, id, day, closure, now);
    case DeletionLocked(id, closureId, _) => DeleteClosureSound(db, id, closureId, now);
    case RowWritten(id, row) => CommitWrittenSound(db, id, row, now);
    case _ =>
  }

  /** A commit leaves alone what a transaction with other locks relies on. */
  lemma CommitFramesOthers(db: Database, x: Txn, now: int, other: Txn)
    requires TxnSound(db, now, x)
    requires ResourceHeld(x).Some? ==> ResourceHeld(x) != ResourceHeld(other)
    requires BookingHeld(x).Some? ==> BookingHeld(x) != BookingHeld(other)
    ensures Frame(other, db, Committed(db, x))
  {
    hide SoundRow, Conflict, NotStranded, FitsSchedule, PassesDateCheck, DayNumber, Frame, Releases, Remaining, Changed;
    match x
    case CreateInserted(newId, row) => BookingWriteFrames(db, newId, row, other);
    case RowWritten(id, row) => BookingWriteFrames(db, id, row, other);
    case UpdateChecked(id, change) => ResourceWriteFrames(db, id, Changed(db.resources[id], change), other);
    case StatusChecked(id, status) => ResourceWriteFrames(db, id, db.resources[id].(status := status), other);
    case ClosureChecked(id, _, _) => ClosureWriteFrames(db, Committed(db, x), id, other);
    case DeletionLocked(id, _, _) => ClosureWriteFrames(db, Committed(db, x), id, other);
    case _ => FrameReflexive(other, db);
  }

  lemma BookingWriteFrames(db: Database, id: Id, row: Booking, other: Txn)
    requires BookingHeld(other) != Some(id)
    requires ResourceHeld(other) != Some(row.resourceId) || (id in db.bookings && Releases(db.bookings[id], row))
    ensures Frame(other, db, db.(bookings := db.bookings[id := row]))
  {
  }

  lemma ResourceWriteFrames(db: Database, id: Id, row: Resource, other: Txn)
    requires ResourceHeld(other) != Some(id)
    ensures Frame(other, db, db.(resources := db.resources[id := row]))
  {
  }

  lemma ClosureWriteFrames(db: Database, after: Database, id: Id, other: Txn)
    requires ResourceHeld(other) != Some(id) && after.resources == db.resources && after.bookings == db.bookings
    requires forall k: (Id, int) :: k.0 != id ==> (k in db.closures <==> k in after.closures)
    ensures Frame(other, db, after)
  {
  }

  // ------------------------------------------------------------------ steps

  /** A write that frames every other transaction keeps the invariant. */
  lemma WriteKeepsInv(s: State, t: nat, after: Database)
    requires Inv(s) && TablesSound(after, s.now)
    requires forall u :: u in s.txns && u != t ==> Frame(s.txns[u], s.db, after)
    ensures Inv(s.Write(t, after))
  {
    hide TablesSound, TxnSound, Frame;
    forall u | u in s.txns && u != t
      ensures TxnSound(after, s.now, s.txns[u])
    {
      FrameKeepsTxnSound(s.txns[u], s.db, after, s.now, s.now);
    }
  }

  lemma DropKeepsInv(s: State, t: nat)
    requires Inv(s)
    ensures Inv(s.Drop(t))
  {
  }

  /** Moving to a sound next phase, with locks that nobody else holds. */
  lemma PutKeepsInv(s: State, t: nat, x: Txn)
    requires Inv(s) && TxnSound(s.db, s.now, x)
    requires ResourceHeld(x).Some? ==> forall u :: u in s.txns && u != t ==> ResourceHeld(s.txns[u]) != ResourceHeld(x)
    requires BookingHeld(x).Some? ==> forall u :: u in s.txns && u != t ==> BookingHeld(s.txns[u]) != BookingHeld(x)
    ensures Inv(s.Put(t, x))
  {
    hide TablesSound, TxnSound;
  }

  lemma TickKeepsInv(s: State, elapsed: nat)
    requires Inv(s)
    ensures Inv(s.(now := s.now + elapsed))
  {
    hide TablesSound, TxnSound, Frame;
    TablesSoundLater(s.db, s.now, s.now + elapsed);
    forall u | u in s.txns
      ensures TxnSound(s.db, s.now + elapsed, s.txns[u])
    {
      FrameReflexive(s.txns[u], s.db);
      FrameKeepsTxnSound(s.txns[u], s.db, s.db, s.now, s.now + elapsed);
    }
  }

  lemma CommitKeepsInv(s: State, t: nat)
    requires Inv(s) && t in s.txns
    ensures Inv(s.Write(t, Committed(s.db, s.txns[t])))
  {
    hide TablesSound, TxnSound, Frame;
    var x := s.txns[t];
    CommitKeepsTables(s.db, x, s.now);
    forall u | u in s.txns && u != t
      ensures Frame(s.txns[u], s.db, Committed(s.db, x))
    {
      CommitFramesOthers(s.db, x, s.now, s.txns[u]);
    }
    WriteKeepsInv(s, t, Committed(s.db, x));
  }

  lemma ScheduleCheckSound(db: Database, id: Id, change: ResourceChange, now: int)
    requires TablesSound(db, now) && id in db.resources
    requires Changed(db.resources[id], change).opensAt < Changed(db.resources[id], change).closesAt
    requires ScheduleChanges(db.resources[id], change)
             ==> ScheduleConflicts(db, id, Changed(db.resources[id], change), now) == {}
    ensures TxnSound(db, now, UpdateChecked(id, change))
  {
    var after := Changed(db.resources[id], change);
    if ScheduleChanges(db.resources[id], change) {
      forall other | other in db.bookings && db.bookings[other].resourceId == id
                     && db.bookings[other].Reviewable() && now < db.bookings[other].EndMs()
        ensures InSchedule(after, db.bookings[other].date, db.bookings[other].startHour, db.bookings[other].endHour)
      {
        EndedExactly(db.bookings[other], now);
        assert other !in ScheduleConflicts(db, id, after, now);
      }
    }
  }

  lemma StatusCheckSound(db: Database, id: Id, status: ResourceStatus, now: int)
    requires TablesSound(db, now) && id in db.resources
    requires status != Active ==> StatusConflicts(db, id, now) == {}
    ensures TxnSound(db, now, StatusChecked(id, status))
  {
    if status != Active {
      forall other | other in db.bookings && db.bookings[other].resourceId == id && db.bookings[other].Blocking()
        ensures db.bookings[other].EndMs() <= now
      {
        EndedExactly(db.bookings[other], now);
        assert other !in StatusConflicts(db, id, now);
      }
    }
  }

  lemma ClosureCheckSound(db: Database, id: Id, day: int, now: int)
    requires TablesSound(db, now) && ClosureConflicts(db, id, day, now) == {}
    ensures UnheldOn(db, id, day, now)
  {
    forall other | db.Blocks(other, id, day)
      ensures db.bookings[other].EndMs() <= now
    {
      ClosureSparesBooking(db, id, day, other, now);
    }
  }

  lemma InsertSound(db: Database, requesterId: Id, request: BookingRequest, r: Resource, newId: Id, now: int)
    requires TxnSound(db, now, CreateOpen(requesterId, request, r))
    requires newId !in db.bookings && !Excluded(db, NewBooking(r, requesterId, request, now))
    ensures TxnSound(db, now, CreateInserted(newId, NewBooking(r, requesterId, request, now)))
  {
    var row := NewBooking(r, requesterId, request, now);
    InsertedRowSound(r, requesterId, request, now);
    hide SoundRow, Tenable, Operational, DayNumber, PassesDateCheck, ResourceChecks, Conflict;
    NewBookingSlot(r, requesterId, request, now);
  }

  lemma InsertedRowSound(r: Resource, requesterId: Id, request: BookingRequest, now: int)
    requires WellFormed(request) && ResourceChecks(r)
    requires Operational(r, DayNumber(request.date), request.startHour, request.endHour)
    ensures var b := NewBooking(r, requesterId, request, now); SoundRow(b, now) && Tenable(r, false, b, now)
  {
    CheckedDateIsWire(request.date);
    hide DayNumber, PassesDateCheck, WeekdayOf, HourMs, WireDay, Btrim;
  }

  lemma LockStepKeepsInv(s: State, t: nat, action: Action)
    requires Inv(s) && t !in s.txns
    requires action.LockForUpdate? || action.LockForStatus? || action.LockForClosure? || action.ReadClosure?
             || action.LockBooking? || action.BeginCreate?
    ensures Inv(Step(s, t, action))
  {
    hide TablesSound, DayNumber, PassesDateCheck;
    var after := Step(s, t, action);
    if after != s {
      assert t in after.txns && after == s.Put(t, after.txns[t]);
      assert TxnSound(s.db, s.now, after.txns[t]);
      PutKeepsInv(s, t, after.txns[t]);
    }
  }

  lemma CreateStepKeepsInv(s: State, t: nat, action: Action)
    requires Inv(s) && t in s.txns && (action.LockForCreate? || action.FindClosure? || action.Insert?)
    ensures Inv(Continue(s, t, s.txns[t], action))
  {
    hide TablesSound, DayNumber, PassesDateCheck, NewBooking;
    DropKeepsInv(s, t);
    var x := s.txns[t];
    assert TxnSound(s.db, s.now, x);
    match (action, x)
    case (LockForCreate, CreateReady(requesterId, request)) =>
      var id := request.resourceId;
      TablesParts(s.db, s.now);
      if s.ResourceFree(id) && id in s.db.resources
         && Operational(s.db.resources[id], DayNumber(request.date), request.startHour, request.endHour) {
        PutKeepsInv(s, t, CreateLocked(requesterId, request, s.db.resources[id]));
      }
    case (FindClosure, CreateLocked(requesterId, request, r)) =>
      if !s.db.Closed(request.resourceId, DayNumber(request.date)) {
        PutKeepsInv(s, t, CreateOpen(requesterId, request, r));
      }
    case (Insert(newId), CreateOpen(requesterId, request, r)) =>
      var row := NewBooking(r, requesterId, request, s.now);
      if s.BookingFree(newId) && newId !in s.db.bookings && !Excluded(s.db, row) {
        InsertSound(s.db, requesterId, request, r, newId, s.now);
        NewBookingSlot(r, requesterId, request, s.now);
        PutKeepsInv(s, t, CreateInserted(newId, row));
      }
    case _ =>
  }

  lemma TablesParts(db: Database, now: int)
    requires TablesSound(db, now)
    ensures ResourcesSound(db) && RowsSound(db, now) && NoneStranded(db, now) && NoDoubleBooking(db)
  {
  }

  lemma NewBookingSlot(r: Resource, requesterId: Id, request: BookingRequest, now: int)
    ensures NewBooking(r, requesterId, request, now).resourceId == request.resourceId
    ensures NewBooking(r, requesterId, request, now).date == DayNumber(request.date)
  {
  }

  /** The schedule check either rolls back or has found the change acceptable. */
  lemma ScheduleStep(s: State, t: nat, id: Id, change: ResourceChange)
    requires id in s.db.resources
    ensures var after := Continue(s, t, UpdateLocked(id, change), CheckSchedule);
            after == s.Drop(t)
            || (after == s.Put(t, UpdateChecked(id, change))
                && var r := s.db.resources[id];
                   Changed(r, change).opensAt < Changed(r, change).closesAt
                   && (ScheduleChanges(r, change) ==> ScheduleConflicts(s.db, id, Changed(r, change), s.now) == {}))
  {
    hide ScheduleConflicts, ScheduleChanges, Changed;
  }

  lemma ScheduleStepKeepsInv(s: State, t: nat)
    requires Inv(s) && t in s.txns && s.txns[t].UpdateLocked?
    ensures Inv(Continue(s, t, s.txns[t], CheckSchedule))
  {
    hide TablesSound, ScheduleConflicts, FitsSchedule, Continue, Changed, ScheduleChanges;
    DropKeepsInv(s, t);
    var x := s.txns[t];
    assert TxnSound(s.db, s.now, x);
    ScheduleStep(s, t, x.resourceId, x.change);
    if Continue(s, t, x, CheckSchedule) != s.Drop(t) {
      ScheduleCheckSound(s.db, x.resourceId, x.change, s.now);
      PutKeepsInv(s, t, UpdateChecked(x.resourceId, x.change));
    }
  }

  lemma StatusStepKeepsInv(s: State, t: nat)
    requires Inv(s) && t in s.txns && s.txns[t].StatusLocked?
    ensures Inv(Continue(s, t, s.txns[t], CheckStatus))
  {
    hide Inv, TablesSound, TxnSound, StatusConflicts;
    DropKeepsInv(s, t);
    var x := s.txns[t];
    LockedResource(s, t);
    if x.status == Active || StatusConflicts(s.db, x.resourceId, s.now) == {} {
      StatusCheckSound(s.db, x.resourceId, x.status, s.now);
      MoveKeepsInv(s, t, StatusChecked(x.resourceId, x.status));
    }
  }

  /** The resource that a transaction has locked exists, and the tables it reads are sound. */
  lemma LockedResource(s: State, t: nat)
    requires Inv(s) && t in s.txns && (s.txns[t].StatusLocked? || s.txns[t].ClosureLocked?)
    ensures TablesSound(s.db, s.now) && s.txns[t].resourceId in s.db.resources
  {
    assert TxnSound(s.db, s.now, s.txns[t]);
    hide TablesSound;
  }

  /** A transaction that moves on with the locks it has. */
  lemma MoveKeepsInv(s: State, t: nat, x: Txn)
    requires Inv(s) && t in s.txns && TxnSound(s.db, s.now, x)
    requires ResourceHeld(x) == ResourceHeld(s.txns[t]) && BookingHeld(x) == BookingHeld(s.txns[t])
    ensures Inv(s.Put(t, x))
  {
    hide TablesSound, TxnSound, ResourceHeld, BookingHeld;
    PutKeepsInv(s, t, x);
  }

  lemma ClosureStepKeepsInv(s: State, t: nat)
    requires Inv(s) && t in s.txns && s.txns[t].ClosureLocked?
    ensures Inv(Continue(s, t, s.txns[t], CheckClosure))
  {
    hide Inv, TablesSound, ClosureConflicts, UnheldOn;
    DropKeepsInv(s, t);
    var x := s.txns[t];
    LockedResource(s, t);
    if ClosureConflicts(s.db, x.resourceId, x.day, s.now) == {} {
      ClosureCheckSound(s.db, x.resourceId, x.day, s.now);
      MoveKeepsInv(s, t, ClosureChecked(x.resourceId, x.day, x.closure));
    }
  }

  lemma CheckStepKeepsInv(s: State, t: nat, action: Action)
    requires Inv(s) && t in s.txns && (action.CheckSchedule? || action.CheckStatus? || action.CheckClosure?)
    ensures Inv(Continue(s, t, s.txns[t], action))
  {
    hide Inv, ScheduleConflicts, StatusConflicts, ClosureConflicts;
    match (action, s.txns[t])
    case (CheckSchedule, UpdateLocked(_, _)) => ScheduleStepKeepsInv(s, t);
    case (CheckStatus, StatusLocked(_, _)) => StatusStepKeepsInv(s, t);
    case (CheckClosure, ClosureLocked(_, _, _)) => ClosureStepKeepsInv(s, t);
    case _ =>
  }

  lemma DeletionLockKeepsInv(s: State, t: nat)
    requires Inv(s) && t in s.txns
    ensures Inv(Continue(s, t, s.txns[t], LockForDeletion))
  {
    hide Inv, TxnSound;
    DropKeepsInv(s, t);
    match s.txns[t]
    case DeletionReady(id, closureId, found) =>
      if s.ResourceFree(id) && id in s.db.resources {
        DeletionLockSound(s.db, s.now, id, closureId, found);
        PutKeepsInv(s, t, DeletionLocked(id, closureId, found));
      }
    case _ =>
  }

  lemma DeletionLockSound(db: Database, now: int, id: Id, closureId: Id, found: Option<int>)
    requires id in db.resources
    ensures TxnSound(db, now, DeletionLocked(id, closureId, found))
  {
  }

  /** An UPDATE that a lifecycle command issues breaks no CHECK and keeps the slot. */
  lemma AdvanceSound(db: Database, id: Id, command: Lifecycle, now: int)
    requires TablesSound(db, now) && id in db.bookings
    ensures var r := Advance(db.bookings[id], command, now); r.Ok? ==> TxnSound(db, now, RowWritten(id, r.value))
  {
    hide Advance, TablesSound, Releases, Remaining;
    StoredRowSound(db, id, now);
    AdvanceKeepsChecks(db.bookings[id], command, now);
    AdvanceReleases(db.bookings[id], command, now);
    hide SoundRow;
  }

  lemma StoredRowSound(db: Database, id: Id, now: int)
    requires TablesSound(db, now) && id in db.bookings
    ensures SoundRow(db.bookings[id], now) && NotStranded(db, db.bookings[id], now)
  {
    hide SoundRow, NotStranded;
  }

  lemma WriteStepKeepsInv(s: State, t: nat)
    requires Inv(s) && t in s.txns
    ensures Inv(Continue(s, t, s.txns[t], WriteBooking))
  {
    hide TablesSound, TxnSound, Advance;
    DropKeepsInv(s, t);
    match s.txns[t]
    case RowLocked(id, command) =>
      if id in s.db.bookings {
        AdvanceSound(s.db, id, command, s.now);
        if Advance(s.db.bookings[id], command, s.now).Ok? {
          PutKeepsInv(s, t, RowWritten(id, Advance(s.db.bookings[id], command, s.now).value));
        }
      }
    case _ =>
  }

  // ---------------------------------------------- new resources and imports

  /** A step outside the transactions that frames all of them. */
  lemma OutsideWriteKeepsInv(s: State, after: Database)
    requires Inv(s) && TablesSound(after, s.now)
    requires forall u :: u in s.txns ==> Frame(s.txns[u], s.db, after)
    ensures Inv(s.(db := after))
  {
    hide TablesSound, TxnSound, Frame;
    forall u | u in s.txns
      ensures TxnSound(after, s.now, s.txns[u])
    {
      FrameKeepsTxnSound(s.txns[u], s.db, after, s.now, s.now);
    }
  }

  /** Replacing or adding a resource row that no booking needs and nobody has locked. */
  lemma ReplaceResourceKeepsInv(s: State, id: Id, row: Resource)
    requires Inv(s) && s.ResourceFree(id) && ResourceChecks(row)
    requires id in s.db.resources ==> !HasActiveBooking(s.db, id)
    ensures Inv(s.(db := s.db.(resources := s.db.resources[id := row])))
  {
    hide SoundRow, Conflict, TxnSound;
    var after := s.db.(resources := s.db.resources[id := row]);
    forall other | other in s.db.bookings
      ensures NotStranded(after, s.db.bookings[other], s.now)
    {
      assert NotStranded(s.db, s.db.bookings[other], s.now);
    }
    OutsideWriteKeepsInv(s, after);
  }

  /** A resource that does not exist is locked by nobody. */
  lemma MissingResourceFree(s: State, id: Id)
    requires Inv(s) && id !in s.db.resources
    ensures s.ResourceFree(id)
  {
  }

  lemma AddResourceKeepsInv(s: State, newId: Id, draft: ResourceDraft)
    requires Inv(s)
    ensures Inv(s.(db := ExecuteCreateResource(s.db, newId, draft, s.now).db))
  {
    hide Inv;
    if ExecuteCreateResource(s.db, newId, draft, s.now).failure.None? {
      MissingResourceFree(s, newId);
      ReplaceResourceKeepsInv(s, newId, NewResource(draft, s.now));
    }
  }

  lemma ImportResourceKeepsInv(s: State, newId: Id, row: ImportRow)
    requires Inv(s)
    ensures Inv(s.(db := Upserted(s, newId, row)))
  {
    hide Inv;
    var after := Upserted(s, newId, row);
    if after != s.db {
      if id: Id :| HasCode(s.db, id, row.code)
                   && after == s.db.(resources := s.db.resources[id := row.(createdAt := s.db.resources[id].createdAt)])
                   && s.ResourceFree(id) && !HasActiveBooking(s.db, id) {
        ReplaceResourceKeepsInv(s, id, row.(createdAt := s.db.resources[id].createdAt));
      } else {
        MissingResourceFree(s, newId);
        ReplaceResourceKeepsInv(s, newId, row.(createdAt := s.now));
      }
    }
  }

  lemma ImportClosureKeepsInv(s: State, id: Id, day: int, closure: Closure)
    requires Inv(s) && s.ResourceFree(id) && !HasActiveBookingOn(s.db, id, day)
    ensures Inv(s.(db := s.db.(closures := s.db.closures[(id, day) := closure])))
  {
    hide SoundRow, Conflict, TxnSound, TablesSound;
    AddClosureSound(s.db, id, day, closure, s.now);
    OutsideWriteKeepsInv(s, s.db.(closures := s.db.closures[(id, day) := closure]));
  }

  lemma CleanedSound(db: Database, codes: set<string>, now: int)
    requires TablesSound(db, now)
    ensures TablesSound(Cleaned(db, codes), now)
  {
    hide SoundRow, Conflict, ResourceChecks, Tenable;
    var after := Cleaned(db, codes);
    forall id | id in db.bookings
      ensures NotStranded(after, db.bookings[id], now)
    {
      assert NotStranded(db, db.bookings[id], now);
      assert !Cleanable(db, codes, db.bookings[id].resourceId);
    }
  }

  /** Deleting resources that nobody has locked leaves alone what open transactions rely on. */
  lemma CleanFrames(db: Database, codes: set<string>, x: Txn)
    requires forall id: Id :: Cleanable(db, codes, id) ==> ResourceHeld(x) != Some(id)
    ensures Frame(x, db, Cleaned(db, codes))
  {
    hide HasBooking, Releases;
    forall id | id in db.bookings
      ensures Releases(db.bookings[id], db.bookings[id])
    {
      RowReleasesItself(db.bookings[id]);
    }
  }

  lemma RowReleasesItself(b: Booking)
    ensures Releases(b, b)
  {
  }

  lemma CleanKeepsInv(s: State, codes: set<string>)
    requires Inv(s) && CleanableFree(s, codes)
    ensures Inv(s.(db := Cleaned(s.db, codes)))
  {
    hide TablesSound, TxnSound, Frame, Cleanable, Cleaned, ResourceHeld;
    CleanedSound(s.db, codes, s.now);
    forall u | u in s.txns
      ensures Frame(s.txns[u], s.db, Cleaned(s.db, codes))
    {
      CleanFrames(s.db, codes, s.txns[u]);
    }
    OutsideWriteKeepsInv(s, Cleaned(s.db, codes));
  }

  // ------------------------------------------------------------------- runs

  lemma StepKeepsInv(s: State, t: nat, action: Action)
    requires Inv(s)
    ensures Inv(Step(s, t, action))
  {
    hide Inv, Upserted, Continue, NoOpenWrites;
    match action
    case Tick(elapsed) => TickKeepsInv(s, elapsed);
    case AddResource(newId, draft) => AddResourceKeepsInv(s, newId, draft);
    case ImportResource(newId, row) => ImportResourceKeepsInv(s, newId, row);
    case ImportClosure(id, day, closure) =>
      if Step(s, t, action) != s {
        ImportClosureKeepsInv(s, id, day, closure);
      }
    case CleanCatalog(codes) =>
      if Step(s, t, action) != s {
        CleanKeepsInv(s, codes);
      }
    case _ =>
      if t !in s.txns {
        OpeningKeepsInv(s, t, action);
      } else if Step(s, t, action) != s {
        ContinueKeepsInv(s, t, action);
      }
  }

  lemma OpeningKeepsInv(s: State, t: nat, action: Action)
    requires Inv(s) && t !in s.txns
    requires !action.Tick? && !action.AddResource? && !action.ImportResource? && !action.ImportClosure?
             && !action.CleanCatalog?
    ensures Inv(Step(s, t, action))
  {
    hide Inv;
    if action.LockForUpdate? || action.LockForStatus? || action.LockForClosure? || action.ReadClosure?
       || action.LockBooking? || action.BeginCreate? {
      LockStepKeepsInv(s, t, action);
    }
  }

  lemma ContinueKeepsInv(s: State, t: nat, action: Action)
    requires Inv(s) && t in s.txns
    ensures Inv(Continue(s, t, s.txns[t], action))
  {
    hide Inv;
    if action.LockForCreate? || action.FindClosure? || action.Insert? {
      CreateStepKeepsInv(s, t, action);
    } else if action.CheckSchedule? || action.CheckStatus? || action.CheckClosure? {
      CheckStepKeepsInv(s, t, action);
    } else if action.LockForDeletion? {
      DeletionLockKeepsInv(s, t);
    } else if action.WriteBooking? {
      WriteStepKeepsInv(s, t);
    } else if action.Commit? {
      CommitKeepsInv(s, t);
    } else if action.Rollback? {
      DropKeepsInv(s, t);
    }
  }

  /** The state after any sequence of steps of any transactions. */
  ghost function Exec(s: State, schedule: seq<(nat, Action)>): State
    decreases schedule
  {
    if schedule == [] then s else Exec(Step(s, schedule[0].0, schedule[0].1), schedule[1..])
  }

  /** Every schedule keeps the invariant. */
  lemma {:induction false} EveryScheduleSound(s: State, schedule: seq<(nat, Action)>)
    requires Inv(s)
    ensures Inv(Exec(s, schedule))
    decreases schedule
  {
    hide Inv, Step;
    if schedule != [] {
      StepKeepsInv(s, schedule[0].0, schedule[0].1);
      EveryScheduleSound(Step(s, schedule[0].0, schedule[0].1), schedule[1..]);
    }
  }
}
