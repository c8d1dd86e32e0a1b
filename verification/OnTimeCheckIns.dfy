/**
 * "Checked in only on ACTIVE resources" under interleaving: kept as long as
 * check-ins commit before the booking ends, and lost only when one does not.
 */
module OnTimeCheckIns {
  import opened Bookings
  import opened Calendar
  import opened Campus
  import opened CampusInvariants
  import opened Interleaving
  import opened InterleavingResults
  import opened InterleavingSafety
  import opened Resources

  /** The step does not commit a check-in of a booking that has ended. */
  predicate OnTime(s: State, t: nat, action: Action) {
    action.Commit? && t in s.txns && s.txns[t].RowWritten? && s.txns[t].row.status == CheckedIn ==>
      s.now < s.txns[t].row.EndMs()
  }

  ghost predicate AllOnTime(s: State, schedule: seq<(nat, Action)>)
    decreases schedule
  {
    schedule == []
    || (OnTime(s, schedule[0].0, schedule[0].1) && AllOnTime(Step(s, schedule[0].0, schedule[0].1), schedule[1..]))
  }

  ghost predicate NoneCheckedIn(db: Database, resourceId: Id) {
    forall id :: id in db.bookings && db.bookings[id].status == CheckedIn ==> db.bookings[id].resourceId != resourceId
  }

  /** What an open transaction leaves of "checked in only on ACTIVE" when it commits. */
  ghost predicate LeavesActive(db: Database, x: Txn) {
    (x.StatusChecked? && x.status != Active ==> NoneCheckedIn(db, x.resourceId))
    && (x.CreateInserted? ==> x.row.status != CheckedIn)
  }

  ghost predicate ActiveInv(s: State) {
    CheckedInOnActive(s.db) && forall t :: t in s.txns ==> LeavesActive(s.db, s.txns[t])
  }

  // ------------------------------------------------------------ commits

  /** An on-time check-in lands on an ACTIVE resource that nobody is about to take out of service. */
  lemma OnTimeCheckInActive(s: State, t: nat)
    requires Inv(s) && t in s.txns && s.txns[t].RowWritten? && s.txns[t].row.status == CheckedIn
    requires s.now < s.txns[t].row.EndMs()
    ensures var r := s.txns[t].row.resourceId;
            r in s.db.resources && s.db.resources[r].status == Active
            && forall u :: u in s.txns && s.txns[u].StatusChecked? && s.txns[u].resourceId == r ==>
                 s.txns[u].status == Active
  {
    hide Inv, TablesSound, SoundRow, Conflict;
    var x := s.txns[t];
    WrittenReleases(s, t);
    TablesOf(s);
    var stored := s.db.bookings[x.bookingId];
    StoredRowSound(s.db, x.bookingId, s.now);
    forall u | u in s.txns && s.txns[u].StatusChecked? && s.txns[u].resourceId == x.row.resourceId
      ensures s.txns[u].status == Active
    {
      TxnOf(s, u);
    }
  }

  /** A committed row that is not checked in, or is on an ACTIVE resource that stays so. */
  lemma RowKeepsActive(s: State, t: nat, id: Id, row: Booking)
    requires ActiveInv(s)
    requires row.status == CheckedIn ==>
               row.resourceId in s.db.resources && s.db.resources[row.resourceId].status == Active
               && forall u :: u in s.txns && s.txns[u].StatusChecked? && s.txns[u].resourceId == row.resourceId ==>
                 s.txns[u].status == Active
    ensures ActiveInv(s.Write(t, s.db.(bookings := s.db.bookings[id := row])))
  {
    var after := s.db.(bookings := s.db.bookings[id := row]);
    forall u | u in s.txns && u != t
      ensures LeavesActive(after, s.txns[u])
    {
      assert LeavesActive(s.db, s.txns[u]);
    }
  }

  lemma StatusKeepsActive(s: State, t: nat, id: Id, status: ResourceStatus)
    requires ActiveInv(s) && LeavesActive(s.db, StatusChecked(id, status))
    ensures ActiveInv(s.Write(t, Committed(s.db, StatusChecked(id, status))))
  {
  }

  lemma UpdateKeepsActive(s: State, t: nat, id: Id, change: ResourceChange)
    requires ActiveInv(s)
    ensures ActiveInv(s.Write(t, Committed(s.db, UpdateChecked(id, change))))
  {
    assert id in s.db.resources ==> Changed(s.db.resources[id], change).status == s.db.resources[id].status;
    hide Changed;
  }

  lemma CommitKeepsActive(s: State, t: nat)
    requires Inv(s) && ActiveInv(s) && t in s.txns && OnTime(s, t, Commit)
    ensures ActiveInv(s.Write(t, Committed(s.db, s.txns[t])))
  {
    hide Inv, Changed;
    var x := s.txns[t];
    assert LeavesActive(s.db, x);
    if x.RowWritten? && x.row.status == CheckedIn {
      OnTimeCheckInActive(s, t);
    }
    hide ActiveInv, NoneCheckedIn;
    match x
    case CreateInserted(newId, row) => RowKeepsActive(s, t, newId, row);
    case RowWritten(id, row) => RowKeepsActive(s, t, id, row);
    case StatusChecked(id, status) => StatusKeepsActive(s, t, id, status);
    case UpdateChecked(id, change) => UpdateKeepsActive(s, t, id, change);
    case _ => SameRowsKeepActive(s, t, Committed(s.db, x));
  }

  lemma SameRowsKeepActive(s: State, t: nat, after: Database)
    requires ActiveInv(s) && after.resources == s.db.resources && after.bookings == s.db.bookings
    ensures ActiveInv(s.Write(t, after))
  {
  }

  // -------------------------------------------------------------- other steps

  /** Writing a resource row that no booking needs. */
  lemma ResourceRowKeepsActive(s: State, id: Id, row: Resource)
    requires ActiveInv(s) && (id in s.db.resources ==> !HasActiveBooking(s.db, id))
    ensures ActiveInv(s.(db := s.db.(resources := s.db.resources[id := row])))
  {
    var rows := s.db.bookings;
    assert forall b :: b in rows && rows[b].status == CheckedIn && rows[b].resourceId == id ==>
        HasActiveBooking(s.db, id);
  }

  /** The steps that belong to no open transaction. */
  predicate Outside(action: Action) {
    action.AddResource? || action.ImportResource? || action.ImportClosure? || action.CleanCatalog? || action.Tick?
  }

  /** A resource with a checked-in booking is not deleted. */
  lemma CleanKeepsActive(s: State, codes: set<string>)
    requires ActiveInv(s)
    ensures ActiveInv(s.(db := Cleaned(s.db, codes)))
  {
    hide ResourceHeld, BookingHeld;
    var after := Cleaned(s.db, codes);
    forall u | u in s.txns
      ensures LeavesActive(after, s.txns[u])
    {
      assert LeavesActive(s.db, s.txns[u]);
    }
  }

  lemma OutsideStepKeepsActive(s: State, t: nat, action: Action)
    requires ActiveInv(s) && Outside(action)
    ensures ActiveInv(Step(s, t, action))
  {
    hide ActiveInv, HasActiveBooking;
    match action
    case AddResource(newId, draft) =>
      if newId !in s.db.resources {
        ResourceRowKeepsActive(s, newId, NewResource(draft, s.now));
      }
    case ImportResource(newId, row) =>
      var holder := Holder(s.db, row.code);
      if holder.Some? && !HasActiveBooking(s.db, holder.value) {
        ResourceRowKeepsActive(s, holder.value, row.(createdAt := s.db.resources[holder.value].createdAt));
      } else if newId !in s.db.resources {
        ResourceRowKeepsActive(s, newId, row.(createdAt := s.now));
      }
    case ImportClosure(id, day, closure) =>
      ClosuresKeepActive(s, s.db.(closures := s.db.closures[(id, day) := closure]), s.now);
    case CleanCatalog(codes) => CleanKeepsActive(s, codes);
    case Tick(elapsed) => ClosuresKeepActive(s, s.db, s.now + elapsed);
  }

  lemma ClosuresKeepActive(s: State, after: Database, later: int)
    requires ActiveInv(s) && after.resources == s.db.resources && after.bookings == s.db.bookings
    ensures ActiveInv(State(later, after, s.txns))
  {
  }

  /** A step of a transaction other than its commit writes no table, and moves on only with what it has checked. */
  lemma PhaseKeepsActive(s: State, t: nat, x: Txn)
    requires ActiveInv(s) && LeavesActive(s.db, x)
    ensures ActiveInv(s.Put(t, x)) && ActiveInv(s.Drop(t))
  {
  }

  lemma StatusCheckLeavesActive(db: Database, id: Id, status: ResourceStatus, now: int)
    requires status == Active || StatusConflicts(db, id, now) == {}
    ensures LeavesActive(db, StatusChecked(id, status))
  {
    if status != Active {
      assert forall b :: b in db.bookings && db.bookings[b].status == CheckedIn && db.bookings[b].resourceId == id ==>
          b in StatusConflicts(db, id, now);
    }
  }

  lemma ContinueKeepsActive(s: State, t: nat, action: Action)
    requires ActiveInv(s) && t in s.txns && !action.Commit?
    ensures ActiveInv(Continue(s, t, s.txns[t], action))
  {
    var x := s.txns[t];
    assert LeavesActive(s.db, x);
    PhaseKeepsActive(s, t, x);
    var after := Continue(s, t, x, action);
    if action.CheckStatus? && x.StatusLocked?
       && (x.status == Active || StatusConflicts(s.db, x.resourceId, s.now) == {}) {
      StatusCheckLeavesActive(s.db, x.resourceId, x.status, s.now);
      PhaseKeepsActive(s, t, StatusChecked(x.resourceId, x.status));
    } else if after != s && after != s.Drop(t) {
      NextPhase(s, t, action);
      PhaseKeepsActive(s, t, after.txns[t]);
    }
  }

  lemma NextPhase(s: State, t: nat, action: Action)
    requires t in s.txns && !action.Commit? && !action.CheckStatus?
    ensures var after := Continue(s, t, s.txns[t], action);
            after == s || after == s.Drop(t)
            || (t in after.txns && after == s.Put(t, after.txns[t]) && LeavesActive(s.db, after.txns[t]))
  {
    hide Advance, Operational, Excluded, ScheduleConflicts, StatusConflicts, ClosureConflicts, Changed,
      ScheduleChanges, NoneCheckedIn, DayNumber, HasClosureId;
  }

  lemma OpeningKeepsActive(s: State, t: nat, action: Action)
    requires ActiveInv(s) && t !in s.txns
    requires !Outside(action)
    ensures ActiveInv(Step(s, t, action))
  {
    hide RequestError, PassesDateCheck, DayNumber;
    var after := Step(s, t, action);
    if after != s {
      PhaseKeepsActive(s, t, after.txns[t]);
    }
  }

  lemma StepKeepsActive(s: State, t: nat, action: Action)
    requires Inv(s) && ActiveInv(s) && OnTime(s, t, action)
    ensures ActiveInv(Step(s, t, action))
  {
    hide Inv, ActiveInv, OnTime, Continue;
    if Outside(action) {
      OutsideStepKeepsActive(s, t, action);
    } else if t !in s.txns {
      OpeningKeepsActive(s, t, action);
    } else if action.Commit? {
      CommitOf(s, t);
      CommitKeepsActive(s, t);
    } else if Continues(action) {
      StepContinues(s, t, action);
      ContinueKeepsActive(s, t, action);
    }
  }

  /** A schedule whose check-ins commit on time keeps every checked-in booking on an ACTIVE resource. */
  lemma {:induction false} ScheduleKeepsActive(s: State, schedule: seq<(nat, Action)>)
    requires Inv(s) && ActiveInv(s) && AllOnTime(s, schedule)
    ensures Inv(Exec(s, schedule)) && ActiveInv(Exec(s, schedule))
    decreases schedule
  {
    hide Inv, ActiveInv, OnTime, Step;
    if schedule != [] {
      StepKeepsInv(s, schedule[0].0, schedule[0].1);
      StepKeepsActive(s, schedule[0].0, schedule[0].1);
      ScheduleKeepsActive(Step(s, schedule[0].0, schedule[0].1), schedule[1..]);
    }
  }

  /**
   * From sound tables, with every check-in committed before its booking ends, a checked-in booking is
   * on an ACTIVE resource.
   */
  lemma OnTimeCheckInsStayActive(db: Database, now: int, schedule: seq<(nat, Action)>)
    requires TablesSound(db, now) && CheckedInOnActive(db)
    requires AllOnTime(State(now, db, map[]), schedule)
    ensures CheckedInOnActive(Exec(State(now, db, map[]), schedule).db)
  {
    ScheduleKeepsActive(State(now, db, map[]), schedule);
  }
}
