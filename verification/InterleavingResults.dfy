/**
 * What holds of every interleaving, what fails only past a booking's end, and how one transaction
 * alone is its atomic step.
 */
module InterleavingResults {
  import opened Bookings
  import opened Calendar
  import opened Campus
  import opened CampusClock
  import opened CampusInvariants
  import opened Interleaving
  import opened InterleavingSafety
  import opened Resources
  import opened Wrappers

  /**
   * From sound tables, however transactions interleave, no live booking is
   * stranded, no two bookings conflict, and every row meets its constraints.
   */
  lemma NoInterleavingBreaksTables(db: Database, now: int, schedule: seq<(nat, Action)>)
    requires TablesSound(db, now)
    ensures var s := Exec(State(now, db, map[]), schedule);
            RowsSound(s.db, s.now) && NoneStranded(s.db, s.now) && NoDoubleBooking(s.db) && ResourcesSound(s.db)
  {
    EveryScheduleSound(State(now, db, map[]), schedule);
  }

  /** The instants of the booking's life lie in the past, in their order, and where they belong. */
  predicate LifeInOrder(b: Booking, now: int) {
    NotLaterThan(b.cancelledAt, now) && NotLaterThan(b.reviewedAt, now) && NotLaterThan(b.noShowAt, now)
    && NotLaterThan(b.checkInRequestedAt, now) && NotLaterThan(b.checkedInAt, now) && NotLaterThan(b.checkedOutAt, now)
    && (b.checkInRequestedAt.Some? ==>
          HourMs(b.date, b.startHour) - 900_000 <= b.checkInRequestedAt.value < HourMs(b.date, b.endHour))
    && (b.checkedInAt.Some? ==>
          b.checkInRequestedAt.Some? && b.checkInRequestedAt.value <= b.checkedInAt.value < HourMs(b.date, b.endHour))
    && (b.checkedOutAt.Some? ==> b.checkedInAt.Some? && b.checkedInAt.value <= b.checkedOutAt.value)
    && (b.noShowAt.Some? ==> HourMs(b.date, b.endHour) <= b.noShowAt.value)
  }

  predicate NotLaterThan(instant: Option<int>, now: int) {
    match instant
    case Some(t) => t <= now
    case None => true
  }

  /** Nothing stands in the way of the booking on its resource and date. */
  predicate CanTakePlace(db: Database, b: Booking) {
    b.resourceId in db.resources && (b.resourceId, b.date) !in db.closures
    && var r := db.resources[b.resourceId];
       r.status == Active
       && (b.status != CheckedIn ==>
             WeekdayOf(b.date) in r.operatingDays && r.opensAt <= b.startHour && b.endHour <= r.closesAt)
  }

  predicate InTheWay(a: Booking, b: Booking) {
    a.status in {Pending, Confirmed, CheckedIn} && b.status in {Pending, Confirmed, CheckedIn}
    && a.resourceId == b.resourceId && a.date == b.date && a.startHour < b.endHour && b.startHour < a.endHour
  }

  /**
   * After any schedule, in plain terms: bookings that hold a slot of one resource on one date share
   * no hour, each that has not ended can take place, and every life is in order.
   */
  lemma EveryScheduleInPlainTerms(db: Database, now: int, schedule: seq<(nat, Action)>, i: Id, j: Id)
    requires TablesSound(db, now)
    ensures var s := Exec(State(now, db, map[]), schedule);
            (i in s.db.bookings ==>
               var b := s.db.bookings[i];
               b.startHour < b.endHour <= 23 && LifeInOrder(b, s.now)
               && (b.status in {Pending, Confirmed, CheckedIn} && s.now < HourMs(b.date, b.endHour) ==>
                     CanTakePlace(s.db, b)))
            && (i in s.db.bookings && j in s.db.bookings && i != j ==> !InTheWay(s.db.bookings[i], s.db.bookings[j]))
  {
    NoInterleavingBreaksTables(db, now, schedule);
    var s := Exec(State(now, db, map[]), schedule);
    hide Exec, TablesSound, SoundRow, NotStranded, LifeInOrder, CanTakePlace, InTheWay, Conflict, HourMs;
    if i in s.db.bookings {
      RowInPlainTerms(s.db, s.db.bookings[i], s.now);
      if j in s.db.bookings {
        RowInPlainTerms(s.db, s.db.bookings[j], s.now);
        ConflictInPlainTerms(s.db.bookings[i], s.db.bookings[j]);
      }
    }
  }

  lemma ConflictInPlainTerms(a: Booking, b: Booking)
    requires TimeOrder(a) && TimeOrder(b)
    ensures InTheWay(a, b) <==> Conflict(a, b)
  {
    OverlapOnOneDate(a, b);
    hide PeriodsOverlap, PeriodOf;
  }

  lemma RowInPlainTerms(db: Database, b: Booking, now: int)
    requires SoundRow(b, now) && NotStranded(db, b, now)
    ensures TimeOrder(b) && LifeInOrder(b, now)
    ensures b.status in {Pending, Confirmed, CheckedIn} && now < HourMs(b.date, b.endHour) ==> CanTakePlace(db, b)
  {
    hide WeekdayOf, Btrim, WireDay;
  }

  /** Only an insert can violate the exclusion constraint: an update conflicts with no row, committed or not. */
  lemma UpdatesNeverConflict(s: State, t: nat)
    requires Inv(s) && t in s.txns && s.txns[t].RowWritten?
    ensures var x := s.txns[t];
            SatisfiesChecks(x.row)
            && (forall id :: id in s.db.bookings && id != x.bookingId ==> !Conflict(s.db.bookings[id], x.row))
            && (forall u :: u in s.txns && s.txns[u].CreateInserted? ==> !Conflict(s.txns[u].row, x.row))
  {
    var x := s.txns[t];
    hide Inv, TxnSound, SoundRow, Conflict, SatisfiesChecks, TablesSound;
    TxnOf(s, t);
    TablesOf(s);
    WrittenMeetsChecks(s, t);
    CommitWrittenSound(s.db, x.bookingId, x.row, s.now);
    forall u | u in s.txns && s.txns[u].CreateInserted?
      ensures !Conflict(s.txns[u].row, x.row)
    {
      InsertedApart(s, u, t);
    }
  }

  /** An inserted row conflicts neither with the stored row nor with its update. */
  lemma InsertedApart(s: State, u: nat, t: nat)
    requires Inv(s) && t in s.txns && s.txns[t].RowWritten? && u in s.txns && s.txns[u].CreateInserted?
    ensures !Conflict(s.txns[u].row, s.txns[t].row)
  {
    hide Inv, Conflict, Releases;
    var x := s.txns[t];
    WrittenReleases(s, t);
    InsertedIsApart(s, u, x.bookingId);
    ConflictSymmetric(s.txns[u].row, s.db.bookings[x.bookingId]);
    ReleasedStaysApart(s.db.bookings[x.bookingId], x.row, s.txns[u].row);
  }

  lemma TxnOf(s: State, t: nat)
    requires Inv(s) && t in s.txns
    ensures TxnSound(s.db, s.now, s.txns[t])
  {
    hide TxnSound, TablesSound, LocksExclusive;
  }

  lemma TablesOf(s: State)
    requires Inv(s)
    ensures TablesSound(s.db, s.now)
  {
    hide TxnSound, TablesSound, LocksExclusive;
  }

  lemma WrittenMeetsChecks(s: State, t: nat)
    requires Inv(s) && t in s.txns && s.txns[t].RowWritten?
    ensures SatisfiesChecks(s.txns[t].row)
  {
    TxnOf(s, t);
    hide Inv, SatisfiesChecks, Releases, WireDay;
  }

  lemma WrittenReleases(s: State, t: nat)
    requires Inv(s) && t in s.txns && s.txns[t].RowWritten?
    ensures s.txns[t].bookingId in s.db.bookings && Releases(s.db.bookings[s.txns[t].bookingId], s.txns[t].row)
  {
    hide Inv, Releases, SoundRow;
    TxnOf(s, t);
  }

  lemma InsertedIsApart(s: State, u: nat, id: Id)
    requires Inv(s) && u in s.txns && s.txns[u].CreateInserted? && id in s.db.bookings
    ensures !Conflict(s.db.bookings[id], s.txns[u].row)
  {
    hide Inv, Conflict, SoundRow, NotStranded;
    TxnOf(s, u);
  }

  /** A booking checked in on a resource that is not ACTIVE has ended. */
  lemma InactiveCheckInHasEnded(s: State, id: Id)
    requires Inv(s) && id in s.db.bookings && s.db.bookings[id].status == CheckedIn
    ensures s.db.bookings[id].resourceId in s.db.resources
    ensures s.db.resources[s.db.bookings[id].resourceId].status == Active || HasEnded(s.db.bookings[id], s.now)
  {
  }

  /** The steps that move an open transaction on. */
  predicate Continues(action: Action) {
    action.LockForCreate? || action.FindClosure? || action.Insert? || action.CheckSchedule? || action.CheckStatus?
    || action.CheckClosure? || action.LockForDeletion? || action.WriteBooking? || action.Commit? || action.Rollback?
  }

  lemma StepContinues(s: State, t: nat, action: Action)
    requires Continues(action)
    ensures Step(s, t, action) == if t in s.txns then Continue(s, t, s.txns[t], action) else s
  {
  }

  /** A step reports a failure exactly when it ends its transaction without being told to. */
  lemma FailureEnds(s: State, t: nat, action: Action)
    requires t in s.txns && Continues(action) && !action.Commit? && !action.Rollback?
    ensures Reported(s, t, action).failure.Some? <==> t !in Step(s, t, action).txns
    ensures Step(s, t, action).db == s.db
  {
    StepContinues(s, t, action);
    hide Operational, DayNumber, NewBooking, Excluded, Awaited, Changed, ScheduleChanges, ScheduleConflicts,
      StatusConflicts, ClosureConflicts, HasClosureId, Advance, Committed, Published;
  }

  /** A create is refused for an overlap that no open transaction can take back. */
  lemma OverlapStands(s: State, t: nat, newId: Id)
    requires t in s.txns && s.txns[t].CreateOpen?
    requires Reported(s, t, Insert(newId)).failure == Some(Domain(BookingOverlap))
    ensures var x := s.txns[t];
            var row := NewBooking(x.resource, x.requesterId, x.request, s.now);
            exists id :: id in s.db.bookings && Conflict(s.db.bookings[id], row)
              && forall u :: u in s.txns && s.txns[u].RowWritten? ==> s.txns[u].bookingId != id
  {
    hide NewBooking, Conflict;
    var x := s.txns[t];
    var row := NewBooking(x.resource, x.requesterId, x.request, s.now);
    assert Excluded(s.db, row) && !Awaited(s, row);
    var id :| id in s.db.bookings && Conflict(s.db.bookings[id], row);
  }

  lemma CommitOf(s: State, t: nat)
    requires t in s.txns
    ensures Step(s, t, Commit) == s.Write(t, Committed(s.db, s.txns[t]))
  {
  }

  lemma NothingContinues(s: State, t: nat, action: Action)
    requires t !in s.txns && Continues(action)
    ensures Step(s, t, action) == s
  {
  }

  // ------------------------------------------------- a late check-in commit

  lemma ExecFirst(s: State, schedule: seq<(nat, Action)>)
    requires schedule != []
    ensures Exec(s, schedule) == Exec(Step(s, schedule[0].0, schedule[0].1), schedule[1..])
  {
  }

  /** Confirm a check-in, let the booking end, take the resource out of service, then commit the check-in. */
  function LateCommit(id: Id, b: Booking, command: Lifecycle, elapsed: nat): seq<(nat, Action)> {
    [(0, LockBooking(id, command)), (0, WriteBooking), (0, Tick(elapsed)),
     (1, LockForStatus(b.resourceId, Maintenance)), (1, CheckStatus), (1, Commit), (0, Commit)]
  }

  /** The states that schedule passes through. */
  lemma LateCommitStates(s0: State, s1: State, s2: State, s3: State, s4: State, s5: State, s6: State, id: Id,
                         b: Booking, command: Lifecycle, elapsed: nat)
    requires Step(s0, 0, LockBooking(id, command)) == s1 && Step(s1, 0, WriteBooking) == s2
             && Step(s2, 0, Tick(elapsed)) == s3
    requires Step(s3, 1, LockForStatus(b.resourceId, Maintenance)) == s4 && Step(s4, 1, CheckStatus) == s5
             && Step(s5, 1, Commit) == s6
    ensures Exec(s0, LateCommit(id, b, command, elapsed)) == Step(s6, 0, Commit)
  {
    hide Step;
    var schedule := LateCommit(id, b, command, elapsed);
    ExecFirst(s0, schedule);
    ExecFirst(s1, schedule[1..]);
    ExecFirst(s2, schedule[2..]);
    ExecFirst(s3, schedule[3..]);
    ExecFirst(s4, schedule[4..]);
    ExecFirst(s5, schedule[5..]);
    ExecFirst(s6, schedule[6..]);
  }

  /** No other booking of the resource stands in the way of taking it out of service. */
  ghost predicate OnlyHolder(db: Database, id: Id, resourceId: Id, now: int) {
    forall other :: other in db.bookings && other != id && db.bookings[other].resourceId == resourceId ==>
      !HoldsStatus(db.bookings[other], now)
  }

  lemma OnlyEndedBookings(db: Database, id: Id)
    requires id in db.bookings && TimeOrder(db.bookings[id]) && db.bookings[id].status == Confirmed
    requires OnlyHolder(db, id, db.bookings[id].resourceId, db.bookings[id].EndMs())
    ensures StatusConflicts(db, db.bookings[id].resourceId, db.bookings[id].EndMs()) == {}
  {
  }

  /**
   * Where only this booking holds the resource, a check-in confirmed before its
   * end and committed after it follows a change to MAINTENANCE that saw the
   * booking as ended and unchecked: "checked in only on ACTIVE" is lost.
   */
  lemma LateCommitOnMaintenance(db: Database, now: int, id: Id, staff: Id, elapsed: nat)
    requires TablesSound(db, now) && id in db.bookings && CanConfirmCheckIn(db.bookings[id], now)
    requires elapsed == db.bookings[id].EndMs() - now
    requires OnlyHolder(db, id, db.bookings[id].resourceId, db.bookings[id].EndMs())
    ensures db.bookings[id].checkInCode.Some?
    ensures var b := db.bookings[id];
            var schedule := LateCommit(id, b, ConfirmCheckIn(staff, b.checkInCode.value), elapsed);
            var after := Exec(State(now, db, map[]), schedule).db;
            id in after.bookings && after.bookings[id].status == CheckedIn
            && b.resourceId in after.resources && after.resources[b.resourceId].status == Maintenance
  {
    hide TablesSound, SoundRow, Exec, LateCommit, OnlyHolder;
    StoredRowSound(db, id, now);
    var b := db.bookings[id];
    ConfirmsInTime(b, staff, now);
    var command := ConfirmCheckIn(staff, b.checkInCode.value);
    hide Advance, CanConfirmCheckIn;
    OnlyEndedBookings(db, id);
    LateCommitRun(db, now, id, command, Advance(b, command, now).value, elapsed);
  }

  lemma ConfirmsInTime(b: Booking, staff: Id, now: int)
    requires SoundRow(b, now) && CanConfirmCheckIn(b, now)
    ensures b.checkInCode.Some? && now < b.EndMs() && TimeOrder(b) && b.status == Confirmed
    ensures var r := Advance(b, ConfirmCheckIn(staff, b.checkInCode.value), now); r.Ok? && r.value.status == CheckedIn
  {
  }

  lemma LateCommitRun(db: Database, now: int, id: Id, command: Lifecycle, row: Booking, elapsed: nat)
    requires id in db.bookings && elapsed == db.bookings[id].EndMs() - now
             && Advance(db.bookings[id], command, now) == Ok(row)
    requires db.bookings[id].resourceId in db.resources
    requires StatusConflicts(db, db.bookings[id].resourceId, db.bookings[id].EndMs()) == {}
    ensures var b := db.bookings[id];
            var after := Exec(State(now, db, map[]), LateCommit(id, b, command, elapsed)).db;
            id in after.bookings && after.bookings[id] == row
            && b.resourceId in after.resources && after.resources[b.resourceId].status == Maintenance
  {
    hide Step, Continue, Advance, StatusConflicts, LateCommit;
    var b := db.bookings[id];
    var r := b.resourceId;
    var s0 := State(now, db, map[]);
    var s1 := s0.Put(0, RowLocked(id, command));
    var s2 := s0.Put(0, RowWritten(id, row));
    var s3 := State(b.EndMs(), db, s2.txns);
    LateCommitWrites(s0, id, command, row);
    TakesOut(s3, 1, r);
    TickOf(s2, 0, elapsed);
    var s6 := s3.(db := db.(resources := db.resources[r := db.resources[r].(status := Maintenance)]));
    LateCommitStates(s0, s1, s2, s3, s3.Put(1, StatusLocked(r, Maintenance)), s3.Put(1, StatusChecked(r, Maintenance)),
                     s6, id, b, command, elapsed);
    CommitOf(s6, 0);
  }

  lemma TickOf(s: State, t: nat, elapsed: nat)
    ensures Step(s, t, Tick(elapsed)) == s.(now := s.now + elapsed)
  {
  }

  lemma LateCommitWrites(s: State, id: Id, command: Lifecycle, row: Booking)
    requires s.txns == map[] && id in s.db.bookings && Advance(s.db.bookings[id], command, s.now) == Ok(row)
    ensures Step(s, 0, LockBooking(id, command)) == s.Put(0, RowLocked(id, command))
    ensures Step(s.Put(0, RowLocked(id, command)), 0, WriteBooking) == s.Put(0, RowWritten(id, row))
  {
    hide Advance, Continue;
    StepContinues(s.Put(0, RowLocked(id, command)), 0, WriteBooking);
    assert Continue(s.Put(0, RowLocked(id, command)), 0, RowLocked(id, command), WriteBooking)
           == s.Put(0, RowWritten(id, row)) by {
      WriteContinues(s.Put(0, RowLocked(id, command)), 0, id, command, row);
      assert s.Put(0, RowLocked(id, command)).Put(0, RowWritten(id, row)) == s.Put(0, RowWritten(id, row));
    }
  }

  lemma WriteContinues(s: State, t: nat, id: Id, command: Lifecycle, row: Booking)
    requires id in s.db.bookings && Advance(s.db.bookings[id], command, s.now) == Ok(row)
    ensures Continue(s, t, RowLocked(id, command), WriteBooking) == s.Put(t, RowWritten(id, row))
  {
  }

  /** A status change of a resource that nobody holds or has locked. */
  lemma TakesOut(s: State, u: nat, r: Id)
    requires r in s.db.resources && u !in s.txns && s.ResourceFree(r) && StatusConflicts(s.db, r, s.now) == {}
    ensures Step(s, u, LockForStatus(r, Maintenance)) == s.Put(u, StatusLocked(r, Maintenance))
    ensures Step(s.Put(u, StatusLocked(r, Maintenance)), u, CheckStatus) == s.Put(u, StatusChecked(r, Maintenance))
    ensures Step(s.Put(u, StatusChecked(r, Maintenance)), u, Commit)
         == s.(db := s.db.(resources := s.db.resources[r := s.db.resources[r].(status := Maintenance)]))
  {
    hide StatusConflicts;
    var s4, s5 := s.Put(u, StatusLocked(r, Maintenance)), s.Put(u, StatusChecked(r, Maintenance));
    CheckStatusOf(s4, u, r, Maintenance);
    CommitOf(s5, u);
    assert s5.txns - {u} == s.txns;
    assert s4.Put(u, StatusChecked(r, Maintenance)) == s5;
    hide Continue;
  }

  lemma CheckStatusOf(s: State, t: nat, id: Id, status: ResourceStatus)
    requires t in s.txns && s.txns[t] == StatusLocked(id, status)
    ensures Step(s, t, CheckStatus)
         == if status != Active && StatusConflicts(s.db, id, s.now) != {} then s.Drop(t)
            else s.Put(t, StatusChecked(id, status))
  {
  }
}
