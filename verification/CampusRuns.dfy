/** Whole runs of atomic transactions under a clock that never goes back. */
module CampusRuns {
  import opened Bookings
  import opened Campus
  import opened CampusInvariants
  import opened Resources

  datatype Timed = Timed(command: Command, now: int)

  ghost predicate ClockAdvances(start: int, run: seq<Timed>)
    decreases run
  {
    run == [] || (start <= run[0].now && ClockAdvances(run[0].now, run[1..]))
  }

  ghost function Replay(db: Database, run: seq<Timed>): Database
    decreases run
  {
    if run == [] then db else Replay(Execute(db, run[0].command, run[0].now).db, run[1..])
  }

  function LastNow(start: int, run: seq<Timed>): int {
    if run == [] then start else run[|run| - 1].now
  }

  /** The run updates the booking at its first step. */
  ghost predicate UpdatesAt(db: Database, step: Timed, id: Id) {
    step.command.Progress? && step.command.bookingId == id && Execute(db, step.command, step.now).failure.None?
  }

  /** How often the run updates the booking. */
  ghost function Updates(db: Database, run: seq<Timed>, id: Id): nat
    decreases run
  {
    if run == [] then 0
    else
      (if UpdatesAt(db, run[0], id) then 1 else 0)
      + Updates(Execute(db, run[0].command, run[0].now).db, run[1..], id)
  }

  /** Atomic transactions keep every invariant, including check-ins on ACTIVE resources only. */
  lemma {:induction false} EveryRunSound(db: Database, start: int, run: seq<Timed>)
    requires Sound(db, start) && ClockAdvances(start, run)
    ensures Sound(Replay(db, run), LastNow(start, run))
    decreases run
  {
    hide Sound, Execute;
    if run != [] {
      var step := run[0];
      SoundLater(db, start, step.now);
      ExecuteKeepsSound(db, step.command, step.now);
      EveryRunSound(Execute(db, step.command, step.now).db, step.now, run[1..]);
      assert run[1..] == [] || LastNow(step.now, run[1..]) == run[|run| - 1].now;
    }
  }

  lemma ReleasesTransitive(a: Booking, b: Booking, c: Booking)
    requires Releases(a, b) && Releases(b, c)
    ensures Releases(a, c)
  {
  }

  lemma StepOnBooking(db: Database, step: Timed, id: Id)
    requires Sound(db, step.now) && id in db.bookings
    ensures var after := Execute(db, step.command, step.now).db;
            id in after.bookings && Releases(db.bookings[id], after.bookings[id])
            && Remaining(after.bookings[id]) + (if UpdatesAt(db, step, id) then 1 else 0) <= Remaining(db.bookings[id])
            && (!UpdatesAt(db, step, id) ==> after.bookings[id] == db.bookings[id])
  {
    if step.command.Progress? && step.command.bookingId == id {
      AdvanceReleases(db.bookings[id], step.command.lifecycle, step.now);
      hide Advance, Releases, Sound;
    } else {
      OtherStepsKeepBooking(db, step.command, step.now, id);
      hide Execute, Sound;
    }
  }

  lemma OtherStepsKeepBooking(db: Database, command: Command, now: int, id: Id)
    requires id in db.bookings && !(command.Progress? && command.bookingId == id)
    ensures var after := Execute(db, command, now).db; id in after.bookings && after.bookings[id] == db.bookings[id]
  {
    hide Advance, RequestError, Operational, Excluded, ScheduleConflicts, StatusConflicts, ClosureConflicts, Changed,
      ScheduleChanges, NewBooking, NewResource;
  }

  /**
   * A booking keeps its slot and its requester for good, never takes a released
   * slot back, and is updated at most four times.
   */
  lemma {:induction false} BookingOverRun(db: Database, start: int, run: seq<Timed>, id: Id)
    requires Sound(db, start) && ClockAdvances(start, run) && id in db.bookings
    ensures var after := Replay(db, run);
            id in after.bookings && Releases(db.bookings[id], after.bookings[id])
            && Updates(db, run, id) + Remaining(after.bookings[id]) <= Remaining(db.bookings[id]) <= 4
    decreases run
  {
    hide Sound, Execute, UpdatesAt, Releases;
    if run == [] {
      ReleasesReflexive(db.bookings[id]);
    } else {
      var step := run[0];
      SoundLater(db, start, step.now);
      ExecuteKeepsSound(db, step.command, step.now);
      StepOnBooking(db, step, id);
      var next := Execute(db, step.command, step.now).db;
      BookingOverRun(next, step.now, run[1..], id);
      ReleasesTransitive(db.bookings[id], next.bookings[id], Replay(next, run[1..]).bookings[id]);
    }
  }

  lemma ReleasesReflexive(b: Booking)
    ensures Releases(b, b)
  {
  }
}
