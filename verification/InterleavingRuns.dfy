/** What happens to one booking over any interleaving of transactions. */
module InterleavingRuns {
  import opened Bookings
  import opened Campus
  import opened CampusRuns
  import opened Interleaving
  import opened InterleavingResults
  import opened InterleavingSafety
  import opened Resources

  /** The step commits an update of the booking. */
  predicate CommitsUpdate(s: State, t: nat, action: Action, id: Id) {
    action.Commit? && t in s.txns && s.txns[t].RowWritten? && s.txns[t].bookingId == id
  }

  /** How many updates of the booking the schedule commits. */
  ghost function UpdatesIn(s: State, schedule: seq<(nat, Action)>, id: Id): nat
    decreases schedule
  {
    if schedule == [] then 0
    else
      var (t, action) := schedule[0];
      (if CommitsUpdate(s, t, action, id) then 1 else 0) + UpdatesIn(Step(s, t, action), schedule[1..], id)
  }

  /** Only the commit of an update of the booking writes its row. */
  lemma StepOnRow(s: State, t: nat, action: Action, id: Id)
    requires Inv(s) && id in s.db.bookings && !CommitsUpdate(s, t, action, id)
    ensures var after := Step(s, t, action).db; id in after.bookings && after.bookings[id] == s.db.bookings[id]
  {
    hide Inv, Step, Committed;
    if action.Commit? && t in s.txns {
      CommitOf(s, t);
      if s.txns[t].CreateInserted? {
        InsertsAreNew(s, t);
      }
      CommitOnRow(s.db, s.txns[t], id);
    } else {
      OtherStepsKeepRows(s, t, action);
    }
  }

  lemma InsertsAreNew(s: State, t: nat)
    requires Inv(s) && t in s.txns && s.txns[t].CreateInserted?
    ensures s.txns[t].newId !in s.db.bookings
  {
    assert TxnSound(s.db, s.now, s.txns[t]);
  }

  lemma CommitOnRow(db: Database, x: Txn, id: Id)
    requires id in db.bookings && (x.CreateInserted? ==> x.newId != id) && (x.RowWritten? ==> x.bookingId != id)
    ensures id in Committed(db, x).bookings && Committed(db, x).bookings[id] == db.bookings[id]
  {
    hide Changed;
  }

  lemma OtherStepsKeepRows(s: State, t: nat, action: Action)
    requires !(action.Commit? && t in s.txns)
    ensures Step(s, t, action).db.bookings == s.db.bookings
  {
    hide Advance, Operational, Excluded, ScheduleConflicts, StatusConflicts, ClosureConflicts, Changed,
      ScheduleChanges, HasClosureId, RequestError, NewBooking, CodeTaken, HasActiveBooking, HasActiveBookingOn;
  }

  /** A committed update keeps the slot, takes back nothing and uses up a remaining step. */
  lemma UpdateOnRow(s: State, t: nat, id: Id)
    requires Inv(s) && CommitsUpdate(s, t, Commit, id)
    ensures id in s.db.bookings
    ensures var after := Step(s, t, Commit).db;
            id in after.bookings && Releases(s.db.bookings[id], after.bookings[id])
            && Remaining(after.bookings[id]) < Remaining(s.db.bookings[id])
  {
    hide Inv, Step, SoundRow, Releases, Remaining;
    CommitOf(s, t);
    TxnOf(s, t);
  }

  lemma FourAtMost(b: Booking)
    ensures Remaining(b) <= 4
  {
  }

  /**
   * Under every interleaving a booking keeps its slot and its requester for
   * good, never takes a released slot back, and is updated at most four times.
   */
  lemma {:induction false} BookingOverSchedule(s: State, schedule: seq<(nat, Action)>, id: Id)
    requires Inv(s) && id in s.db.bookings
    ensures var after := Exec(s, schedule).db;
            id in after.bookings && Releases(s.db.bookings[id], after.bookings[id])
            && UpdatesIn(s, schedule, id) + Remaining(after.bookings[id]) <= Remaining(s.db.bookings[id]) <= 4
    decreases schedule
  {
    hide Inv, Step, Releases, Remaining, CommitsUpdate;
    FourAtMost(s.db.bookings[id]);
    if schedule == [] {
      ReleasesReflexive(s.db.bookings[id]);
    } else {
      var (t, action) := schedule[0];
      var next := Step(s, t, action);
      StepKeepsInv(s, t, action);
      if CommitsUpdate(s, t, action, id) {
        CommitsAreCommits(s, t, action, id);
        UpdateOnRow(s, t, id);
      } else {
        StepOnRow(s, t, action, id);
        ReleasesReflexive(s.db.bookings[id]);
      }
      BookingOverSchedule(next, schedule[1..], id);
      ReleasesTransitive(s.db.bookings[id], next.db.bookings[id], Exec(next, schedule[1..]).db.bookings[id]);
    }
  }

  lemma CommitsAreCommits(s: State, t: nat, action: Action, id: Id)
    requires CommitsUpdate(s, t, action, id)
    ensures action == Commit
  {
  }
}
