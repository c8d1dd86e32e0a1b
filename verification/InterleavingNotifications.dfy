/**
 * Which steps of an interleaving change a view without an event for it, and
 * why a committed change of a view is otherwise announced.
 */
module InterleavingNotifications {
  import opened Availability
  import opened Bookings
  import opened Calendar
  import opened Campus
  import opened CampusInvariants
  import opened Interleaving
  import opened InterleavingResults
  import opened InterleavingSafety
  import opened OnTimeCheckIns
  import opened Resources
  import opened Wrappers

  /** The deletion takes a closure that shows, on another day than the one it read before its lock. */
  predicate StaleDeletion(db: Database, x: Txn, resourceId: Id, day: int) {
    x.DeletionLocked? && x.resourceId == resourceId && x.found != Some(day)
    && IsClosure(db, resourceId, x.closureId, (resourceId, day))
    && resourceId in db.resources && db.resources[resourceId].status == Active
  }

  // -------------------------------------------------------------- one commit

  lemma InsertNotifies(db: Database, newId: Id, row: Booking, resourceId: Id, day: int)
    requires newId !in db.bookings
    ensures SameInputs(db.(bookings := db.bookings[newId := row]), db, resourceId, day)
            || Announced([AvailabilityChanged(row.resourceId, row.date)], resourceId, day)
  {
    if row.resourceId != resourceId || row.date != day {
      BusyAfterPut(db, newId, row, resourceId, day);
    }
  }

  lemma WriteNotifies(db: Database, id: Id, row: Booking, resourceId: Id, day: int)
    requires id in db.bookings && Releases(db.bookings[id], row)
    ensures SameInputs(db.(bookings := db.bookings[id := row]), db, resourceId, day)
            || Announced(Published(db, RowWritten(id, row)), resourceId, day)
  {
    var before := db.bookings[id];
    if row.resourceId != resourceId || row.date != day || before.Blocking() == row.Blocking() {
      BusyAfterPut(db, id, row, resourceId, day);
      OnlyBusyMatters(db, db.(bookings := db.bookings[id := row]), resourceId, day);
    } else {
      assert before.Blocking() && !row.Blocking();
    }
    hide SameInputs;
  }

  lemma ResourceWriteNotifies(db: Database, id: Id, row: Resource, resourceId: Id, day: int)
    requires id in db.resources
    ensures SameInputs(db.(resources := db.resources[id := row]), db, resourceId, day)
            || Announced([ResourceChanged(id)], resourceId, day)
  {
    if resourceId != id {
      OtherResourcesStay(db, id, row, resourceId, day);
    }
  }

  lemma ClosureNotifies(db: Database, id: Id, closedDay: int, closure: Closure, resourceId: Id, day: int)
    ensures SameInputs(db.(closures := db.closures[(id, closedDay) := closure]), db, resourceId, day)
            || Announced([AvailabilityChanged(id, closedDay)], resourceId, day)
  {
    if resourceId != id || day != closedDay {
      OtherClosuresStay(db, id, closedDay, closure, resourceId, day);
    }
  }

  /** A deletion changes the view of the days whose closure it takes, where closures show. */
  lemma DeletionShows(db: Database, id: Id, closureId: Id, resourceId: Id, day: int, at: int)
    ensures View(WithoutClosure(db, id, closureId), resourceId, day, at) != View(db, resourceId, day, at)
       <==> id == resourceId && IsClosure(db, id, closureId, (id, day))
            && id in db.resources && db.resources[id].status == Active
  {
    var after := WithoutClosure(db, id, closureId);
    assert after.BusyOn(resourceId, day) == db.BusyOn(resourceId, day);
    if id == resourceId && id in db.resources && IsClosure(db, id, closureId, (id, day)) {
      var closure := db.closures[(id, day)];
      ClosureShows(after, id, day, closure, at);
      var restored := after.(closures := after.closures[(id, day) := closure]);
      assert SameInputs(restored, db, id, day) by { assert restored.BusyOn(id, day) == db.BusyOn(id, day); }
      SameInputsSameView(restored, db, id, day, at);
    } else if resourceId in db.resources {
      assert SameInputs(after, db, resourceId, day);
      SameInputsSameView(after, db, resourceId, day, at);
    }
    hide View;
  }

  lemma DeletionNotifies(db: Database, x: Txn, resourceId: Id, day: int, at: int)
    requires x.DeletionLocked?
    ensures View(Committed(db, x), resourceId, day, at) != View(db, resourceId, day, at)
              && !Announced(Published(db, x), resourceId, day)
       <==> StaleDeletion(db, x, resourceId, day)
  {
    DeletionShows(db, x.resourceId, x.closureId, resourceId, day, at);
    hide View, WithoutClosure;
    if IsClosure(db, x.resourceId, x.closureId, (x.resourceId, day)) {
      assert ClosureKey(db, x.resourceId, x.closureId).Some?;
    }
  }

  /** What a commit needs of the tables it writes. */
  predicate Committable(db: Database, x: Txn) {
    match x
    case CreateInserted(newId, _) => newId !in db.bookings
    case RowWritten(id, row) => id in db.bookings && Releases(db.bookings[id], row)
    case UpdateChecked(id, _) => id in db.resources
    case StatusChecked(id, _) => id in db.resources
    case _ => true
  }

  lemma OpenCommittable(db: Database, now: int, x: Txn)
    requires TxnSound(db, now, x)
    ensures Committable(db, x)
  {
    hide Changed, SoundRow, Conflict, NotStranded, FitsSchedule, Releases, Remaining, ResourceChecks, Unheld;
  }

  lemma CommitKeepsOrAnnounces(db: Database, x: Txn, resourceId: Id, day: int)
    requires Committable(db, x) && !x.DeletionLocked?
    ensures SameInputs(Committed(db, x), db, resourceId, day) || Announced(Published(db, x), resourceId, day)
  {
    hide SameInputs, Announced, Changed, Releases;
    match x
    case CreateInserted(newId, row) => InsertNotifies(db, newId, row, resourceId, day);
    case RowWritten(id, row) => WriteNotifies(db, id, row, resourceId, day);
    case UpdateChecked(id, change) =>
      ResourceWriteNotifies(db, id, Changed(db.resources[id], change), resourceId, day);
    case StatusChecked(id, status) =>
      ResourceWriteNotifies(db, id, db.resources[id].(status := status), resourceId, day);
    case ClosureChecked(id, closedDay, closure) => ClosureNotifies(db, id, closedDay, closure, resourceId, day);
    case _ => SameInputsReflexive(db, resourceId, day);
  }

  /**
   * In every reachable state, a commit changes the view of a resource on a day
   * without an event for it exactly when it is that of a stale deletion.
   */
  lemma CommitNotifies(s: State, t: nat, resourceId: Id, day: int, at: int)
    requires Inv(s) && t in s.txns
    ensures View(Committed(s.db, s.txns[t]), resourceId, day, at) != View(s.db, resourceId, day, at)
              && !Announced(Published(s.db, s.txns[t]), resourceId, day)
       <==> StaleDeletion(s.db, s.txns[t], resourceId, day)
  {
    hide Inv, TxnSound, View, SameInputs, Published, Committed, Committable, Announced, StaleDeletion;
    var x := s.txns[t];
    if x.DeletionLocked? {
      DeletionNotifies(s.db, x, resourceId, day, at);
    } else {
      TxnOf(s, t);
      OpenCommittable(s.db, s.now, x);
      CommitKeepsOrAnnounces(s.db, x, resourceId, day);
      if SameInputs(Committed(s.db, x), s.db, resourceId, day) {
        SameInputsSameView(Committed(s.db, x), s.db, resourceId, day, at);
      }
      OnlyDeletionsAreStale(s.db, x, resourceId, day);
    }
  }

  lemma OnlyDeletionsAreStale(db: Database, x: Txn, resourceId: Id, day: int)
    ensures StaleDeletion(db, x, resourceId, day) ==> x.DeletionLocked?
  {
  }

  // ---------------------------------------------------------------- one step

  /** Before a step: it will change the view of the resource on the day, and publish nothing for it. */
  ghost predicate SilentStep(s: State, t: nat, action: Action, resourceId: Id, day: int) {
    match action
    case Commit => t in s.txns && StaleDeletion(s.db, s.txns[t], resourceId, day)
    case AddResource(newId, draft) => ChangesSilently(s.db, CreateResource(newId, draft), resourceId, day)
    case ImportResource(newId, row) =>
      NoOpenWrites(s) && (Holder(s.db, row.code).Some? ==> s.ResourceFree(Holder(s.db, row.code).value))
      && ChangesSilently(s.db, Command.ImportResource(newId, row), resourceId, day)
    case ImportClosure(id, closedDay, closure) =>
      NoOpenWrites(s) && s.ResourceFree(id)
      && ChangesSilently(s.db, Command.ImportClosure(id, closedDay, closure), resourceId, day)
    case CleanCatalog(codes) =>
      NoOpenWrites(s) && CleanableFree(s, codes)
      && ChangesSilently(s.db, Command.CleanCatalog(codes), resourceId, day)
    case _ => false
  }

  /** Only commits and the steps outside transactions write the tables. */
  lemma OtherStepsKeepTables(s: State, t: nat, action: Action)
    requires !Outside(action) && !(action.Commit? && t in s.txns)
    ensures Step(s, t, action).db == s.db
  {
    hide Advance, Operational, Excluded, ScheduleConflicts, StatusConflicts, ClosureConflicts, Changed, ScheduleChanges,
      HasClosureId, RequestError, NewBooking, ClosureKey;
  }

  lemma OutsideNotifies(s: State, t: nat, action: Action, resourceId: Id, day: int, at: int)
    requires CodesUnique(s.db) && Outside(action)
    ensures View(Step(s, t, action).db, resourceId, day, at) != View(s.db, resourceId, day, at)
              && !Announced(Reported(s, t, action).events, resourceId, day)
       <==> SilentStep(s, t, action, resourceId, day)
  {
    hide View, ChangesSilently, NoOpenWrites, Cleaned, CleanableFree, CodesUnique, Holder;
    match action
    case Tick(_) =>
    case AddResource(newId, draft) => CreateResourceShows(s.db, newId, draft, s.now, resourceId, day, at);
    case ImportResource(newId, row) => UpsertShows(s.db, newId, row, s.now, resourceId, day, at);
    case ImportClosure(id, closedDay, closure) =>
      ImportedClosureShows(s.db, id, closedDay, closure, resourceId, day, at);
    case CleanCatalog(codes) => CleanShows(s.db, codes, resourceId, day, at);
  }

  /** A step changes a view without an event for it exactly when it is one of the silent ones. */
  lemma StepNotifies(s: State, t: nat, action: Action, resourceId: Id, day: int, at: int)
    requires Inv(s) && CodesUnique(s.db)
    ensures View(Step(s, t, action).db, resourceId, day, at) != View(s.db, resourceId, day, at)
              && !Announced(Reported(s, t, action).events, resourceId, day)
       <==> SilentStep(s, t, action, resourceId, day)
  {
    hide Inv, CodesUnique, View, Step, Reported, StaleDeletion, Announced;
    if Outside(action) {
      OutsideNotifies(s, t, action, resourceId, day, at);
    } else if action.Commit? && t in s.txns {
      CommitOf(s, t);
      CommitReport(s, t);
      CommitNotifies(s, t, resourceId, day, at);
    } else {
      OtherStepsKeepTables(s, t, action);
    }
  }

  lemma CommitReport(s: State, t: nat)
    requires t in s.txns
    ensures Reported(s, t, Commit).events == Published(s.db, s.txns[t])
  {
    hide ClosureKey;
  }

  // ------------------------------------------------------- every reachable step

  lemma RecodeKeepsCodes(db: Database, id: Id, row: Resource)
    requires CodesUnique(db) && (id in db.resources ==> row.code == db.resources[id].code)
    requires id !in db.resources ==> forall other :: !HasCode(db, other, row.code)
    ensures CodesUnique(db.(resources := db.resources[id := row]))
  {
    assert forall other :: HasCode(db, other, row.code) ==> other == id;
    PutCode(db, id, row);
  }

  lemma CommitKeepsCodes(db: Database, x: Txn)
    requires CodesUnique(db)
    ensures CodesUnique(Committed(db, x))
  {
    hide CodesUnique;
    match x
    case UpdateChecked(id, change) =>
      if id in db.resources {
        RecodeKeepsCodes(db, id, Changed(db.resources[id], change));
      }
    case StatusChecked(id, status) =>
      if id in db.resources {
        RecodeKeepsCodes(db, id, db.resources[id].(status := status));
      }
    case _ => SameResourcesKeepCodes(db, Committed(db, x));
  }

  lemma SameResourcesKeepCodes(a: Database, b: Database)
    requires CodesUnique(a)
    requires forall id :: id in b.resources ==> id in a.resources && b.resources[id] == a.resources[id]
    ensures CodesUnique(b)
  {
  }

  lemma UpsertKeepsCodes(db: Database, newId: Id, row: ImportRow, now: int)
    requires CodesUnique(db)
    ensures CodesUnique(ExecuteImportResource(db, newId, row, now).db)
  {
    hide HasActiveBooking;
    match Holder(db, row.code)
    case Some(id) => RecodeKeepsCodes(db, id, row.(createdAt := db.resources[id].createdAt));
    case None =>
      if newId !in db.resources {
        RecodeKeepsCodes(db, newId, row.(createdAt := now));
      }
  }

  lemma AddKeepsCodes(db: Database, newId: Id, draft: ResourceDraft, now: int)
    requires CodesUnique(db)
    ensures CodesUnique(ExecuteCreateResource(db, newId, draft, now).db)
  {
    hide CodesUnique;
    if ExecuteCreateResource(db, newId, draft, now).failure.None? {
      assert forall other :: !HasCode(db, other, draft.code);
      RecodeKeepsCodes(db, newId, NewResource(draft, now));
    }
  }

  lemma StepKeepsCodes(s: State, t: nat, action: Action)
    requires CodesUnique(s.db)
    ensures CodesUnique(Step(s, t, action).db)
  {
    hide CodesUnique, Committed, Continue, NoOpenWrites, CleanableFree, HasActiveBookingOn, HasClosureId, Cleanable,
      ExecuteImportResource, ExecuteCreateResource;
    if Outside(action) {
      match action
      case AddResource(newId, draft) => AddKeepsCodes(s.db, newId, draft, s.now);
      case ImportResource(newId, row) => UpsertKeepsCodes(s.db, newId, row, s.now);
      case _ => SameResourcesKeepCodes(s.db, Step(s, t, action).db);
    } else if action.Commit? && t in s.txns {
      CommitOf(s, t);
      CommitKeepsCodes(s.db, s.txns[t]);
    } else {
      OtherStepsKeepTables(s, t, action);
    }
  }

  lemma {:induction false} ScheduleKeepsCodes(s: State, schedule: seq<(nat, Action)>)
    requires CodesUnique(s.db)
    ensures CodesUnique(Exec(s, schedule).db)
    decreases schedule
  {
    hide CodesUnique, Step;
    if schedule != [] {
      StepKeepsCodes(s, schedule[0].0, schedule[0].1);
      ScheduleKeepsCodes(Step(s, schedule[0].0, schedule[0].1), schedule[1..]);
    }
  }

  /** After any schedule from sound tables, a step changes a view without an event exactly when it is a silent one. */
  lemma EveryStepNotifies(db: Database, now: int, schedule: seq<(nat, Action)>, t: nat, action: Action, resourceId: Id,
                          day: int, at: int)
    requires Sound(db, now)
    ensures var s := Exec(State(now, db, map[]), schedule);
            View(Step(s, t, action).db, resourceId, day, at) != View(s.db, resourceId, day, at)
              && !Announced(Reported(s, t, action).events, resourceId, day)
            <==> SilentStep(s, t, action, resourceId, day)
  {
    var s0 := State(now, db, map[]);
    SoundTables(db, now);
    SoundParts(db, now);
    hide Sound, View, Step, Reported, Announced, SilentStep, CodesUnique, TablesSound, Exec;
    assert Inv(s0);
    EveryScheduleSound(s0, schedule);
    ScheduleKeepsCodes(s0, schedule);
    StepNotifies(Exec(s0, schedule), t, action, resourceId, day, at);
  }

  // ------------------------------------------------ deletions that are up to date

  predicate IsDeletion(x: Txn) {
    x.DeletionReady? || x.DeletionLocked?
  }

  /** No stored closure has the id, and no open deletion is after it: ids are drawn anew. */
  ghost predicate FreshId(s: State, closureId: Id) {
    !HasClosureId(s.db, closureId)
    && forall t :: t in s.txns && IsDeletion(s.txns[t]) ==> s.txns[t].closureId != closureId
  }

  /** A closure that the step adds has a fresh id. */
  ghost predicate FreshInsert(s: State, t: nat, action: Action) {
    (action.Commit? && t in s.txns && s.txns[t].ClosureChecked? ==> FreshId(s, s.txns[t].closure.id))
    && (action.ImportClosure? ==> FreshId(s, action.closure.id))
  }

  ghost predicate AllFresh(s: State, schedule: seq<(nat, Action)>)
    decreases schedule
  {
    schedule == []
    || (FreshInsert(s, schedule[0].0, schedule[0].1)
        && AllFresh(Step(s, schedule[0].0, schedule[0].1), schedule[1..]))
  }

  /** The day that a deletion has read is that of its closure, if there still is one. */
  ghost predicate ReadRight(db: Database, x: Txn) {
    IsDeletion(x) ==>
      forall key: (Id, int) :: IsClosure(db, x.resourceId, x.closureId, key) ==> x.found == Some(key.1)
  }

  ghost predicate UpToDate(s: State) {
    ClosureIdsUnique(s.db) && forall t :: t in s.txns ==> ReadRight(s.db, s.txns[t])
  }

  /** Closures only went away. */
  ghost predicate FewerClosures(a: Database, b: Database) {
    forall k :: k in b.closures ==> k in a.closures && b.closures[k] == a.closures[k]
  }

  lemma FewerKeepRight(a: Database, b: Database, x: Txn)
    requires FewerClosures(a, b) && ReadRight(a, x)
    ensures ReadRight(b, x)
  {
    forall key: (Id, int) | IsDeletion(x) && IsClosure(b, x.resourceId, x.closureId, key)
      ensures x.found == Some(key.1)
    {
      assert IsClosure(a, x.resourceId, x.closureId, key);
    }
  }

  lemma FewerKeepUpToDate(s: State, after: State)
    requires UpToDate(s) && FewerClosures(s.db, after.db)
    requires forall t :: t in after.txns ==> t in s.txns && after.txns[t] == s.txns[t]
    ensures UpToDate(after)
  {
    hide ReadRight;
    forall t | t in after.txns
      ensures ReadRight(after.db, after.txns[t])
    {
      FewerKeepRight(s.db, after.db, after.txns[t]);
    }
  }

  lemma InsertKeepsUpToDate(s: State, after: State, k: (Id, int), closure: Closure)
    requires UpToDate(s) && FreshId(s, closure.id) && after.db.closures == s.db.closures[k := closure]
    requires forall t :: t in after.txns ==> t in s.txns && after.txns[t] == s.txns[t]
    ensures UpToDate(after)
  {
    forall t | t in after.txns
      ensures ReadRight(after.db, after.txns[t])
    {
      InsertKeepsRight(s.db, after.db, after.txns[t], k, closure);
    }
    hide ReadRight;
  }

  lemma InsertKeepsRight(a: Database, b: Database, x: Txn, k: (Id, int), closure: Closure)
    requires ReadRight(a, x) && b.closures == a.closures[k := closure] && (IsDeletion(x) ==> x.closureId != closure.id)
    ensures ReadRight(b, x)
  {
    forall key: (Id, int) | IsDeletion(x) && IsClosure(b, x.resourceId, x.closureId, key)
      ensures x.found == Some(key.1)
    {
      assert IsClosure(a, x.resourceId, x.closureId, key);
    }
  }

  /** What a deletion reads is right when it reads it. */
  lemma ReadIsRight(db: Database, id: Id, closureId: Id)
    requires ClosureIdsUnique(db)
    ensures ReadRight(db, DeletionReady(id, closureId, FoundDay(db, id, closureId)))
  {
  }

  lemma PutKeepsUpToDate(s: State, t: nat, x: Txn)
    requires UpToDate(s) && ReadRight(s.db, x)
    ensures UpToDate(s.Put(t, x)) && UpToDate(s.Drop(t))
  {
    hide ReadRight;
  }

  /** The closures once a transaction commits. */
  lemma CommitKeepsUpToDate(s: State, t: nat)
    requires UpToDate(s) && t in s.txns && FreshInsert(s, t, Commit)
    ensures UpToDate(s.Write(t, Committed(s.db, s.txns[t])))
  {
    hide UpToDate, FreshId, Changed;
    var after := s.Write(t, Committed(s.db, s.txns[t]));
    match s.txns[t]
    case ClosureChecked(id, day, closure) => InsertKeepsUpToDate(s, after, (id, day), closure);
    case _ => FewerKeepUpToDate(s, after);
  }

  lemma OutsideKeepsUpToDate(s: State, t: nat, action: Action)
    requires UpToDate(s) && Outside(action) && FreshInsert(s, t, action)
    ensures UpToDate(Step(s, t, action))
  {
    hide UpToDate, FreshId, HasActiveBooking, HasActiveBookingOn, CodeTaken, NewResource, NoOpenWrites, CleanableFree,
      Holder;
    var after := Step(s, t, action);
    if action.ImportClosure? && after.db.closures != s.db.closures {
      InsertKeepsUpToDate(s, after, (action.resourceId, action.day), action.closure);
    } else {
      FewerKeepUpToDate(s, after);
    }
  }

  /** A transaction moves on, and a deletion takes along what it has read. */
  lemma MoveKeepsUpToDate(s: State, t: nat, action: Action)
    requires UpToDate(s) && !Outside(action) && !(action.Commit? && t in s.txns)
    ensures UpToDate(Step(s, t, action))
  {
    hide UpToDate;
    if action.ReadClosure? && t !in s.txns {
      UniqueIds(s);
      ReadIsRight(s.db, action.resourceId, action.closureId);
      PutKeepsUpToDate(s, t, DeletionReady(action.resourceId, action.closureId,
                                           FoundDay(s.db, action.resourceId, action.closureId)));
    } else {
      MovesOn(s, t, action);
      var after := Step(s, t, action);
      if t in s.txns {
        OpenRight(s, t);
      }
      if t in after.txns {
        PutKeepsUpToDate(s, t, after.txns[t]);
      } else if t in s.txns {
        PutKeepsUpToDate(s, t, s.txns[t]);
      }
    }
  }

  lemma UniqueIds(s: State)
    requires UpToDate(s)
    ensures ClosureIdsUnique(s.db)
  {
  }

  lemma OpenRight(s: State, t: nat)
    requires UpToDate(s) && t in s.txns
    ensures ReadRight(s.db, s.txns[t])
  {
  }

  /** Where a step leads that neither commits nor reads a closure. */
  lemma MovesOn(s: State, t: nat, action: Action)
    requires !Outside(action) && !(action.Commit? && t in s.txns) && !(action.ReadClosure? && t !in s.txns)
    ensures var after := Step(s, t, action);
            after == s || after == s.Drop(t)
            || (t in after.txns && after == s.Put(t, after.txns[t])
                && (IsDeletion(after.txns[t]) ==>
                      t in s.txns && IsDeletion(s.txns[t]) && after.txns[t].resourceId == s.txns[t].resourceId
                      && after.txns[t].closureId == s.txns[t].closureId && after.txns[t].found == s.txns[t].found))
  {
    hide Advance, Operational, Excluded, ScheduleConflicts, StatusConflicts, ClosureConflicts, Changed, ScheduleChanges,
      HasClosureId, RequestError, NewBooking, ClosureKey, DayNumber, PassesDateCheck;
  }

  lemma StepKeepsUpToDate(s: State, t: nat, action: Action)
    requires UpToDate(s) && FreshInsert(s, t, action)
    ensures UpToDate(Step(s, t, action))
  {
    hide UpToDate, Step, Committed, FreshInsert;
    if Outside(action) {
      OutsideKeepsUpToDate(s, t, action);
    } else if action.Commit? && t in s.txns {
      CommitOf(s, t);
      CommitKeepsUpToDate(s, t);
    } else {
      MoveKeepsUpToDate(s, t, action);
    }
  }

  lemma {:induction false} ScheduleKeepsUpToDate(s: State, schedule: seq<(nat, Action)>)
    requires Inv(s) && UpToDate(s) && AllFresh(s, schedule)
    ensures Inv(Exec(s, schedule)) && UpToDate(Exec(s, schedule))
    decreases schedule
  {
    hide Inv, UpToDate, FreshInsert, Step;
    if schedule != [] {
      StepKeepsInv(s, schedule[0].0, schedule[0].1);
      StepKeepsUpToDate(s, schedule[0].0, schedule[0].1);
      ScheduleKeepsUpToDate(Step(s, schedule[0].0, schedule[0].1), schedule[1..]);
    }
  }

  /** As long as closure ids are drawn anew, every commit, over every schedule, announces each view it changes. */
  lemma EveryCommitAnnounces(db: Database, now: int, schedule: seq<(nat, Action)>, t: nat, resourceId: Id, day: int,
                             at: int)
    requires Sound(db, now) && AllFresh(State(now, db, map[]), schedule)
    requires t in Exec(State(now, db, map[]), schedule).txns
    ensures var s := Exec(State(now, db, map[]), schedule);
            View(Committed(s.db, s.txns[t]), resourceId, day, at) != View(s.db, resourceId, day, at) ==>
              Announced(Published(s.db, s.txns[t]), resourceId, day)
  {
    var s0 := State(now, db, map[]);
    SoundParts(db, now);
    hide Sound, View, Published, Committed, Announced;
    assert Inv(s0) by { SoundTables(db, now); }
    ScheduleKeepsUpToDate(s0, schedule);
    var s := Exec(s0, schedule);
    CommitNotifies(s, t, resourceId, day, at);
    OpenRight(s, t);
  }

  lemma SoundTables(db: Database, now: int)
    requires Sound(db, now)
    ensures TablesSound(db, now)
  {
    hide SoundRow, Conflict, NotStranded;
  }
}
