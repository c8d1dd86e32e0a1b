/**
 * Exactly when the commit of a check-in can break "checked in only on ACTIVE
 * resources": as soon as its booking has ended, whoever else holds or has
 * locked the resource by then.
 */
module LateCheckIns {
  import opened Bookings
  import opened Calendar
  import opened Campus
  import opened CampusClock
  import opened CampusInvariants
  import opened Interleaving
  import opened InterleavingResults
  import opened InterleavingSafety
  import opened OnTimeCheckIns
  import opened Resources
  import opened Wrappers

  /** Steps of other transactions, none of which waits. */
  predicate Meanwhile(schedule: seq<(nat, Action)>, t: nat) {
    forall i :: 0 <= i < |schedule| ==> schedule[i].0 != t && !schedule[i].1.Tick?
  }

  lemma OthersKeepTxn(s: State, u: nat, action: Action, t: nat)
    requires u != t && !action.Tick? && t in s.txns
    ensures Step(s, u, action).now == s.now && t in Step(s, u, action).txns && Step(s, u, action).txns[t] == s.txns[t]
  {
    hide Advance, Operational, Excluded, ScheduleConflicts, StatusConflicts, ClosureConflicts, Changed,
      ScheduleChanges, Committed, DayNumber, HasClosureId, RequestError, PassesDateCheck, NewBooking,
      ExecuteCreateResource, Upserted, ExecuteImportClosure;
  }

  lemma {:induction false} MeanwhileKeepsTxn(s: State, schedule: seq<(nat, Action)>, t: nat)
    requires Meanwhile(schedule, t) && t in s.txns
    ensures var after := Exec(s, schedule); after.now == s.now && t in after.txns && after.txns[t] == s.txns[t]
    decreases schedule
  {
    hide Step;
    if schedule != [] {
      OthersKeepTxn(s, schedule[0].0, schedule[0].1, t);
      MeanwhileKeepsTxn(Step(s, schedule[0].0, schedule[0].1), schedule[1..], t);
    }
  }

  /**
   * Other transactions, on time themselves, take a state in which committing `t` checks a booking in
   * off an ACTIVE resource.
   */
  ghost predicate CanBreak(s: State, t: nat) {
    exists schedule :: Meanwhile(schedule, t) && AllOnTime(s, schedule)
      && !CheckedInOnActive(Step(Exec(s, schedule), t, Commit).db)
  }

  /** Taking the resource out of service in three steps of a new transaction. */
  function OutOfService(u: nat, r: Id): seq<(nat, Action)> {
    [(u, LockForStatus(r, Maintenance)), (u, CheckStatus), (u, Commit)]
  }

  lemma OutOfServiceRuns(s: State, u: nat, r: Id)
    requires r in s.db.resources && u !in s.txns && s.ResourceFree(r) && StatusConflicts(s.db, r, s.now) == {}
    ensures AllOnTime(s, OutOfService(u, r))
    ensures Exec(s, OutOfService(u, r))
         == s.(db := s.db.(resources := s.db.resources[r := s.db.resources[r].(status := Maintenance)]))
  {
    hide StatusConflicts, Continue;
    var s4, s5 := s.Put(u, StatusLocked(r, Maintenance)), s.Put(u, StatusChecked(r, Maintenance));
    var schedule := OutOfService(u, r);
    TakesOut(s, u, r);
    hide Step;
    ExecFirst(s, schedule);
    ExecFirst(s4, schedule[1..]);
    ExecFirst(s5, schedule[2..]);
    assert AllOnTime(Step(s5, u, Commit), schedule[3..]);
    assert AllOnTime(s5, schedule[2..]);
    assert AllOnTime(s4, schedule[1..]);
  }

  /** The check-in commits too late for a resource that nobody else holds or has locked. */
  lemma LateCanBreak(s: State, t: nat)
    requires Inv(s) && t in s.txns && s.txns[t].RowWritten? && s.txns[t].row.status == CheckedIn
    requires s.now >= s.txns[t].row.EndMs() && s.ResourceFree(s.txns[t].row.resourceId)
    requires StatusConflicts(s.db, s.txns[t].row.resourceId, s.now) == {}
    ensures CanBreak(s, t)
  {
    hide Inv, StatusConflicts, AllOnTime, Exec, OutOfService, Step;
    var x := s.txns[t];
    var r := x.row.resourceId;
    RowOnResource(s, t);
    var u := UnusedTxn(s.txns.Keys);
    var schedule := OutOfService(u, r);
    OutOfServiceRuns(s, u, r);
    var after := Exec(s, schedule);
    CommitOf(after, t);
    CheckedInOff(after.db, x.bookingId, x.row);
    OthersAct(u, r, t);
  }

  lemma RowOnResource(s: State, t: nat)
    requires Inv(s) && t in s.txns && s.txns[t].RowWritten?
    ensures s.txns[t].row.resourceId in s.db.resources
  {
    hide Inv, TablesSound, SoundRow, Conflict, Tenable;
    WrittenReleases(s, t);
    TablesOf(s);
    StoredRowSound(s.db, s.txns[t].bookingId, s.now);
  }

  lemma CheckedInOff(db: Database, id: Id, row: Booking)
    requires row.status == CheckedIn && row.resourceId in db.resources && db.resources[row.resourceId].status != Active
    ensures !CheckedInOnActive(Committed(db, RowWritten(id, row)))
  {
    assert Committed(db, RowWritten(id, row)).bookings[id] == row;
  }

  lemma OthersAct(u: nat, r: Id, t: nat)
    requires u != t
    ensures Meanwhile(OutOfService(u, r), t)
  {
  }

  lemma {:induction false} UnusedTxn(used: set<nat>) returns (u: nat)
    ensures forall x :: x in used ==> x < u
  {
    u := 0;
    if used != {} {
      var x :| x in used;
      var rest := UnusedTxn(used - {x});
      assert forall y :: y in used ==> y == x || y in used - {x};
      u := if x < rest then rest else x + 1;
    }
  }

  lemma OnTimeCannotBreak(s: State, t: nat)
    requires Inv(s) && ActiveInv(s) && t in s.txns && OnTime(s, t, Commit)
    ensures !CanBreak(s, t)
  {
    forall schedule | Meanwhile(schedule, t) && AllOnTime(s, schedule)
      ensures CheckedInOnActive(Step(Exec(s, schedule), t, Commit).db)
    {
      ScheduleKeepsActive(s, schedule);
      MeanwhileKeepsTxn(s, schedule, t);
      StepKeepsActive(Exec(s, schedule), t, Commit);
    }
  }

  // ---------------------------------------------------------- what others can do

  /** Steps of transactions other than `t`, with check-ins on time, lead from `a` to `b`. */
  ghost predicate Reaches(a: State, b: State, t: nat) {
    exists schedule :: Meanwhile(schedule, t) && AllOnTime(a, schedule) && Exec(a, schedule) == b
  }

  lemma {:induction false} ExecConcat(s: State, first: seq<(nat, Action)>, second: seq<(nat, Action)>)
    ensures Exec(s, first + second) == Exec(Exec(s, first), second)
    ensures AllOnTime(s, first) && AllOnTime(Exec(s, first), second) ==> AllOnTime(s, first + second)
    decreases first
  {
    hide Step, OnTime;
    if first == [] {
      assert first + second == second;
    } else {
      assert (first + second)[0] == first[0] && (first + second)[1..] == first[1..] + second;
      ExecConcat(Step(s, first[0].0, first[0].1), first[1..], second);
    }
  }

  lemma ReachesItself(s: State, t: nat)
    ensures Reaches(s, s, t)
  {
    assert Meanwhile([], t) && AllOnTime(s, []) && Exec(s, []) == s;
  }

  lemma ReachesOn(a: State, b: State, c: State, t: nat)
    requires Reaches(a, b, t) && Reaches(b, c, t)
    ensures Reaches(a, c, t)
  {
    hide AllOnTime, Exec;
    var first :| Meanwhile(first, t) && AllOnTime(a, first) && Exec(a, first) == b;
    var second :| Meanwhile(second, t) && AllOnTime(b, second) && Exec(b, second) == c;
    ExecConcat(a, first, second);
    assert Meanwhile(first + second, t);
  }

  /** What can be broken later can be broken. */
  lemma BreaksLater(a: State, b: State, t: nat)
    requires Reaches(a, b, t) && CanBreak(b, t)
    ensures CanBreak(a, t)
  {
    hide AllOnTime, Exec, CheckedInOnActive, Step;
    var schedule :| Meanwhile(schedule, t) && AllOnTime(b, schedule)
      && !CheckedInOnActive(Step(Exec(b, schedule), t, Commit).db);
    var c := Exec(b, schedule);
    assert Reaches(b, c, t);
    ReachesOn(a, b, c, t);
    var whole :| Meanwhile(whole, t) && AllOnTime(a, whole) && Exec(a, whole) == c;
  }

  lemma ReachesKeeps(a: State, b: State, t: nat)
    requires Inv(a) && t in a.txns && Reaches(a, b, t)
    ensures Inv(b) && b.now == a.now && t in b.txns && b.txns[t] == a.txns[t]
  {
    hide Inv, AllOnTime, Exec;
    var schedule :| Meanwhile(schedule, t) && AllOnTime(a, schedule) && Exec(a, schedule) == b;
    EveryScheduleSound(a, schedule);
    MeanwhileKeepsTxn(a, schedule, t);
  }

  lemma OneStepReaches(s: State, u: nat, action: Action, t: nat)
    requires u != t && !action.Tick? && OnTime(s, u, action)
    ensures Reaches(s, Step(s, u, action), t)
  {
    hide OnTime, Step;
    var schedule := [(u, action)];
    ExecFirst(s, schedule);
    assert AllOnTime(Step(s, u, action), schedule[1..]);
    assert Meanwhile(schedule, t) && AllOnTime(s, schedule) && Exec(s, schedule) == Step(s, u, action);
  }

  // --------------------------------------------------------- everybody rolls back

  lemma RollbackOf(s: State, u: nat)
    requires u in s.txns
    ensures Step(s, u, Rollback) == s.Drop(u)
  {
    StepContinues(s, u, Rollback);
  }

  /** All transactions but one can roll back. */
  lemma {:induction false} OthersRollBack(s: State, t: nat)
    requires t in s.txns
    ensures Reaches(s, s.(txns := map[t := s.txns[t]]), t)
    decreases |s.txns.Keys|
  {
    hide Reaches, Step;
    if u :| u in s.txns && u != t {
      RollbackOf(s, u);
      OneStepReaches(s, u, Rollback, t);
      var next := s.Drop(u);
      assert next.txns.Keys == s.txns.Keys - {u};
      OthersRollBack(next, t);
      ReachesOn(s, next, s.(txns := map[t := s.txns[t]]), t);
    } else {
      assert s.txns.Keys == {t};
      assert s.txns == map[t := s.txns[t]];
      ReachesItself(s, t);
    }
  }

  // ------------------------------------------------------- everybody leaves

  /** A command by which a booking that holds its resource moves on. */
  function Leaving(b: Booking, now: int): Lifecycle {
    if b.status == Pending then Reject(0, "abc")
    else if b.status == CheckedIn then CheckOut(0)
    else if b.checkInCode.Some? then ConfirmCheckIn(0, b.checkInCode.value)
    else if CanCancel(b, now) then Cancel(b.requesterId)
    else RequestCheckIn(b.requesterId, 0)
  }

  /** It succeeds, and what is left of the booking has ended, or still holds the resource and can move on. */
  lemma LeavingSucceeds(b: Booking, now: int)
    requires SoundRow(b, now) && HoldsStatus(b, now)
    ensures var r := Advance(b, Leaving(b, now), now);
            r.Ok? && SoundRow(r.value, now) && Remaining(r.value) < Remaining(b)
            && r.value.resourceId == b.resourceId && (r.value.status == CheckedIn ==> now < r.value.EndMs())
            && (HoldsStatus(r.value, now) || !r.value.Blocking())
  {
    EndedExactly(b, now);
    AdvanceKeepsChecks(b, Leaving(b, now), now);
    AdvanceReleases(b, Leaving(b, now), now);
    hide WireDay, Btrim, EndsAfterNow;
  }

  /** One update of a booking that no open transaction has locked, as a transaction of its own. */
  lemma UpdateReaches(s: State, t: nat, id: Id, command: Lifecycle, row: Booking)
    requires t in s.txns && s.BookingFree(id) && id in s.db.bookings
    requires Advance(s.db.bookings[id], command, s.now) == Ok(row) && (row.status == CheckedIn ==> s.now < row.EndMs())
    ensures Reaches(s, s.(db := s.db.(bookings := s.db.bookings[id := row])), t)
  {
    hide Advance, Reaches, Step, Continue;
    var u := UnusedTxn(s.txns.Keys);
    var s1, s2 := s.Put(u, RowLocked(id, command)), s.Put(u, RowWritten(id, row));
    UpdateSteps(s, u, id, command, row);
    OneStepReaches(s, u, LockBooking(id, command), t);
    OneStepReaches(s1, u, WriteBooking, t);
    OneStepReaches(s2, u, Commit, t);
    ReachesOn(s, s1, s2, t);
    ReachesOn(s, s2, Step(s2, u, Commit), t);
  }

  lemma UpdateSteps(s: State, u: nat, id: Id, command: Lifecycle, row: Booking)
    requires u !in s.txns && s.BookingFree(id) && id in s.db.bookings
    requires Advance(s.db.bookings[id], command, s.now) == Ok(row)
    ensures Step(s, u, LockBooking(id, command)) == s.Put(u, RowLocked(id, command))
    ensures Step(s.Put(u, RowLocked(id, command)), u, WriteBooking) == s.Put(u, RowWritten(id, row))
    ensures Step(s.Put(u, RowWritten(id, row)), u, Commit) == s.(db := s.db.(bookings := s.db.bookings[id := row]))
  {
    hide Advance, Continue;
    var s1, s2 := s.Put(u, RowLocked(id, command)), s.Put(u, RowWritten(id, row));
    StepContinues(s1, u, WriteBooking);
    WriteContinues(s1, u, id, command, row);
    assert s1.Put(u, RowWritten(id, row)) == s2;
    CommitOf(s2, u);
    assert s2.txns - {u} == s.txns;
  }

  /** The booking can be moved on until it holds nothing. */
  lemma {:induction false} BookingLeaves(s: State, t: nat, id: Id) returns (row: Booking)
    requires t in s.txns && s.BookingFree(id) && id in s.db.bookings
    requires SoundRow(s.db.bookings[id], s.now) && HoldsStatus(s.db.bookings[id], s.now)
    ensures Reaches(s, s.(db := s.db.(bookings := s.db.bookings[id := row])), t)
    ensures !row.Blocking()
    decreases Remaining(s.db.bookings[id])
  {
    hide SoundRow, HoldsStatus, Advance, Leaving, Remaining, Reaches;
    var b := s.db.bookings[id];
    LeavingSucceeds(b, s.now);
    row := Advance(b, Leaving(b, s.now), s.now).value;
    UpdateReaches(s, t, id, Leaving(b, s.now), row);
    if row.Blocking() {
      var next := s.(db := s.db.(bookings := s.db.bookings[id := row]));
      var last := BookingLeaves(next, t, id);
      assert next.db.bookings[id := last] == s.db.bookings[id := last];
      ReachesOn(s, next, s.(db := s.db.(bookings := s.db.bookings[id := last])), t);
      row := last;
    }
  }

  // ------------------------------------------------------- the exact condition

  /** The booking that is being checked in late is itself in nobody's way. */
  lemma OwnBookingEnded(s: State, t: nat)
    requires Inv(s) && t in s.txns && s.txns[t].RowWritten? && s.txns[t].row.status == CheckedIn
    requires s.now >= s.txns[t].row.EndMs()
    ensures s.txns[t].bookingId !in StatusConflicts(s.db, s.txns[t].row.resourceId, s.now)
  {
    hide Inv, TablesSound, Conflict;
    WrittenReleases(s, t);
    WrittenRemaining(s, t);
    TablesOf(s);
    StoredRowSound(s.db, s.txns[t].bookingId, s.now);
    StoredTimeOrder(s.db.bookings[s.txns[t].bookingId], s.now);
    EndedExactly(s.db.bookings[s.txns[t].bookingId], s.now);
    hide SoundRow, NotStranded, EndsAfterNow;
  }

  lemma StoredTimeOrder(b: Booking, now: int)
    requires SoundRow(b, now)
    ensures TimeOrder(b)
  {
  }

  lemma WrittenRemaining(s: State, t: nat)
    requires Inv(s) && t in s.txns && s.txns[t].RowWritten?
    ensures s.txns[t].bookingId in s.db.bookings
    ensures Remaining(s.txns[t].row) < Remaining(s.db.bookings[s.txns[t].bookingId])
  {
    hide Inv, Remaining, Releases, SoundRow;
    TxnOf(s, t);
  }

  /** With nobody else open, every booking in the way of a status change can leave. */
  lemma {:induction false} ResourceEmpties(s: State, t: nat) returns (after: State)
    requires Inv(s) && t in s.txns && s.txns == map[t := s.txns[t]]
    requires s.txns[t].RowWritten? && s.txns[t].row.status == CheckedIn && s.now >= s.txns[t].row.EndMs()
    ensures Reaches(s, after, t) && after.txns == s.txns
    ensures StatusConflicts(after.db, s.txns[t].row.resourceId, s.now) == {}
    decreases |StatusConflicts(s.db, s.txns[t].row.resourceId, s.now)|
  {
    hide Inv, Reaches, SoundRow, TablesSound, NotStranded, HoldsStatus;
    var x := s.txns[t];
    var r := x.row.resourceId;
    OwnBookingEnded(s, t);
    if id :| id in StatusConflicts(s.db, r, s.now) {
      TablesOf(s);
      StoredRowSound(s.db, id, s.now);
      assert BookingHeld(x) == Some(x.bookingId);
      var row := BookingLeaves(s, t, id);
      var next := s.(db := s.db.(bookings := s.db.bookings[id := row]));
      ReachesKeeps(s, next, t);
      OneConflictLess(s.db, id, row, r, s.now);
      after := ResourceEmpties(next, t);
      ReachesOn(s, next, after, t);
    } else {
      after := s;
      ReachesItself(s, t);
    }
  }

  lemma OneConflictLess(db: Database, id: Id, row: Booking, r: Id, now: int)
    requires id in StatusConflicts(db, r, now) && !row.Blocking()
    ensures StatusConflicts(db.(bookings := db.bookings[id := row]), r, now) == StatusConflicts(db, r, now) - {id}
  {
  }

  /**
   * Other transactions can make the commit of a check-in break "checked in only
   * on ACTIVE" exactly when the booking has ended by then: the guard of
   * `confirmCheckIn` read at commit.
   */
  lemma BreaksExactlyWhenLate(s: State, t: nat)
    requires Inv(s) && ActiveInv(s)
    requires t in s.txns && s.txns[t].RowWritten? && s.txns[t].row.status == CheckedIn
    ensures CanBreak(s, t) <==> s.now >= s.txns[t].row.EndMs()
  {
    hide Inv, ActiveInv, CanBreak, Reaches, StatusConflicts;
    if s.now < s.txns[t].row.EndMs() {
      OnTimeCannotBreak(s, t);
    } else {
      var alone := s.(txns := map[t := s.txns[t]]);
      OthersRollBack(s, t);
      ReachesKeeps(s, alone, t);
      var after := ResourceEmpties(alone, t);
      ReachesKeeps(alone, after, t);
      LateCanBreak(after, t);
      ReachesOn(s, alone, after, t);
      BreaksLater(s, after, t);
    }
  }
}
