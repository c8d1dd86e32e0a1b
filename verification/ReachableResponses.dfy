/** The responses and pages for whatever the services can have stored. */
module ReachableResponses {
  import opened Bookings
  import opened Calendar
  import opened Campus
  import opened CampusInvariants
  import opened CampusRuns
  import opened FrontendBookings
  import opened Interleaving
  import opened InterleavingResults
  import opened InterleavingSafety
  import opened Resources
  import opened StaffQueues
  import opened WireText

  /** Every booking a command leaves was there before, created when it was, or is created now. */
  lemma StepCreates(db: Database, command: Command, now: int)
    ensures var after := Execute(db, command, now).db;
            forall id :: id in after.bookings ==>
              after.bookings[id].createdAt == now
              || (id in db.bookings && after.bookings[id].createdAt == db.bookings[id].createdAt)
  {
    match command
    case CreateBooking(requesterId, request, newId) => CreateCreates(db, requesterId, request, newId, now);
    case Progress(bookingId, lifecycle) => ProgressCreates(db, bookingId, lifecycle, now);
    case _ => OthersKeepBookings(db, command, now);
    hide Execute;
  }

  lemma CreateCreates(db: Database, requesterId: Id, request: BookingRequest, newId: Id, now: int)
    ensures var after := Execute(db, CreateBooking(requesterId, request, newId), now).db;
            forall id :: id in after.bookings ==>
              after.bookings[id].createdAt == now
              || (id in db.bookings && after.bookings[id].createdAt == db.bookings[id].createdAt)
  {
    hide RequestError, Operational, Excluded;
  }

  lemma ProgressCreates(db: Database, bookingId: Id, command: Lifecycle, now: int)
    ensures var after := Execute(db, Progress(bookingId, command), now).db;
            forall id :: id in after.bookings ==>
              id in db.bookings && after.bookings[id].createdAt == db.bookings[id].createdAt
  {
    if bookingId in db.bookings {
      AdvanceKeepsCreation(db.bookings[bookingId], command, now);
    }
    hide Advance;
  }

  lemma AdvanceKeepsCreation(b: Booking, command: Lifecycle, now: int)
    ensures var r := Advance(b, command, now); r.Ok? ==> r.value.createdAt == b.createdAt
  {
  }

  lemma OthersKeepBookings(db: Database, command: Command, now: int)
    requires !command.CreateBooking? && !command.Progress?
    ensures Execute(db, command, now).db.bookings == db.bookings
  {
    hide ScheduleConflicts, StatusConflicts, ClosureConflicts, Changed, ScheduleChanges, NewResource,
      HasActiveBooking, HasActiveBookingOn, HasClosureId, CodeTaken, ClosureKey, PassesDateCheck;
  }

  ghost predicate CreatedInYears(db: Database) {
    forall id :: id in db.bookings ==> IsoYear(db.bookings[id].createdAt)
  }

  /** Every clock reading of the run is of a four-digit year. */
  predicate ClockInYears(run: seq<Timed>) {
    forall i :: 0 <= i < |run| ==> IsoYear(run[i].now)
  }

  lemma {:induction false} RunCreatesInYears(db: Database, run: seq<Timed>)
    requires CreatedInYears(db) && ClockInYears(run)
    ensures CreatedInYears(Replay(db, run))
    decreases run
  {
    hide Execute, IsoYear;
    if run != [] {
      StepCreates(db, run[0].command, run[0].now);
      RunCreatesInYears(Execute(db, run[0].command, run[0].now).db, run[1..]);
    }
  }

  /**
   * After any run, at any evaluation time, every student response is accepted, and every staff
   * response with a short reason.
   */
  lemma RunResponsesAccepted(db: Database, start: int, run: seq<Timed>, id: Id, evaluatedAt: int)
    requires Sound(db, start) && ClockAdvances(start, run) && id in Replay(db, run).bookings
    ensures StudentAccepted(StudentView(id, Replay(db, run).bookings[id], evaluatedAt))
    ensures StaffAccepted(StaffView(id, Replay(db, run).bookings[id], evaluatedAt))
            <==> ShortReason(Replay(db, run).bookings[id])
  {
    EveryRunSound(db, start, run);
    var b := Replay(db, run).bookings[id];
    assert SoundRow(b, LastNow(start, run));
    hide SoundRow, Sound, Replay, StudentAccepted, StaffAccepted;
    StudentResponsesAccepted(id, b, LastNow(start, run), evaluatedAt);
    StaffResponsesAccepted(id, b, LastNow(start, run), evaluatedAt);
  }

  /** The same under every interleaving. */
  lemma ScheduleResponsesAccepted(db: Database, now: int, schedule: seq<(nat, Action)>, id: Id, evaluatedAt: int)
    requires TablesSound(db, now) && id in Exec(State(now, db, map[]), schedule).db.bookings
    ensures var b := Exec(State(now, db, map[]), schedule).db.bookings[id];
            StudentAccepted(StudentView(id, b, evaluatedAt))
            && (StaffAccepted(StaffView(id, b, evaluatedAt)) <==> ShortReason(b))
  {
    NoInterleavingBreaksTables(db, now, schedule);
    var s := Exec(State(now, db, map[]), schedule);
    assert SoundRow(s.db.bookings[id], s.now);
    hide SoundRow, Exec, StudentAccepted, StaffAccepted;
    StudentResponsesAccepted(id, s.db.bookings[id], s.now, evaluatedAt);
    StaffResponsesAccepted(id, s.db.bookings[id], s.now, evaluatedAt);
  }

  /** After any run under a clock of four-digit years, the staff pages can read the table. */
  lemma RunTableReadable(db: Database, start: int, run: seq<Timed>)
    requires Sound(db, start) && CreatedInYears(db) && ClockAdvances(start, run) && ClockInYears(run)
    ensures TableReadable(Replay(db, run).bookings, LastNow(start, run))
  {
    EveryRunSound(db, start, run);
    RunCreatesInYears(db, run);
    assert RowsSound(Replay(db, run), LastNow(start, run));
    hide SoundRow, Replay, IsoYear;
  }
}
