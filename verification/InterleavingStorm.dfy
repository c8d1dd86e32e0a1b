/** The double-booking storm of the load test under every interleaving: many transactions, one slot, one winner. */
module InterleavingStorm {
  import opened Bookings
  import opened Calendar
  import opened Campus
  import opened Interleaving
  import opened InterleavingResults
  import opened InterleavingSafety
  import opened LoadTestWrites
  import opened Resources
  import opened Wrappers

  // ---------------------------------------------------------------- a burst

  /**
   * A step of a burst: the clock, or `create` for the one request. An insert
   * draws an id that nobody uses, and only an inserted row is committed.
   */
  ghost predicate BurstStep(s: State, t: nat, action: Action, request: BookingRequest) {
    match action
    case Tick(_) => true
    case BeginCreate(_, other) => other == request
    case LockForCreate => true
    case FindClosure => true
    case Insert(newId) => newId !in s.db.bookings && s.BookingFree(newId)
    case Commit => t in s.txns ==> s.txns[t].CreateInserted?
    case _ => false
  }

  ghost predicate Burst(s: State, schedule: seq<(nat, Action)>, request: BookingRequest)
    decreases schedule
  {
    schedule == []
    || (BurstStep(s, schedule[0].0, schedule[0].1, request)
        && Burst(Step(s, schedule[0].0, schedule[0].1), schedule[1..], request))
  }

  /** How the transaction ended, when the step ends it. */
  ghost function Answer(s: State, t: nat, action: Action): seq<Option<Failure>> {
    if t in s.txns && t !in Step(s, t, action).txns then [Reported(s, t, action).failure] else []
  }

  /** How the transactions of the schedule ended, in the order in which they did. */
  ghost function Answers(s: State, schedule: seq<(nat, Action)>): seq<Option<Failure>>
    decreases schedule
  {
    if schedule == [] then []
    else
      Answer(s, schedule[0].0, schedule[0].1) + Answers(Step(s, schedule[0].0, schedule[0].1), schedule[1..])
  }

  /** How many transactions the schedule opens. */
  ghost function Opened(s: State, schedule: seq<(nat, Action)>): nat
    decreases schedule
  {
    if schedule == [] then 0
    else
      var (t, action) := schedule[0];
      var next := Step(s, t, action);
      (if t !in s.txns && t in next.txns then 1 else 0) + Opened(next, schedule[1..])
  }

  // --------------------------------------------------------- the open requests

  /** A row that takes the slot of the request. */
  predicate Takes(row: Booking, request: BookingRequest) {
    row.Blocking() && TimeOrder(row) && row.resourceId == request.resourceId && row.date == DayNumber(request.date)
    && row.startHour == request.startHour && row.endHour == request.endHour
  }

  /** The transaction is on its way to book the request. */
  predicate Runs(db: Database, x: Txn, request: BookingRequest) {
    match x
    case CreateReady(_, other) => other == request && request.startHour < request.endHour
    case CreateLocked(_, other, r) => other == request && request.startHour < request.endHour && Row(db, request, r)
    case CreateOpen(_, other, r) => other == request && request.startHour < request.endHour && Row(db, request, r)
    case CreateInserted(newId, row) => newId !in db.bookings && Takes(row, request)
    case _ => false
  }

  predicate Row(db: Database, request: BookingRequest, r: Resource) {
    request.resourceId in db.resources && db.resources[request.resourceId] == r
  }

  /** The resource operates for the request and is open that day. */
  predicate Bookable(db: Database, request: BookingRequest) {
    request.resourceId in db.resources
    && Operational(db.resources[request.resourceId], DayNumber(request.date), request.startHour, request.endHour)
    && !db.Closed(request.resourceId, DayNumber(request.date))
  }

  ghost predicate AllRun(s: State, request: BookingRequest) {
    Bookable(s.db, request) && forall t :: t in s.txns ==> Runs(s.db, s.txns[t], request)
  }

  ghost predicate SlotFreeIn(db: Database, request: BookingRequest) {
    FreeAt(db, request.resourceId, DayNumber(request.date), request.startHour, request.endHour)
  }

  /** Nobody has committed yet, and the slot is free. */
  ghost predicate Racing(s: State, db: Database, request: BookingRequest) {
    Inv(s) && s.db == db && AllRun(s, request) && SlotFreeIn(db, request)
  }

  /** One row more than `db`, which takes the slot. */
  ghost predicate WonBy(after: Database, db: Database, w: Id, request: BookingRequest) {
    w !in db.bookings && w in after.bookings && Takes(after.bookings[w], request)
    && after == db.(bookings := db.bookings[w := after.bookings[w]])
  }

  /** Somebody has committed, and nobody else has inserted. */
  ghost predicate Over(s: State, db: Database, w: Id, request: BookingRequest) {
    Inv(s) && WonBy(s.db, db, w, request) && AllRun(s, request)
    && forall t :: t in s.txns ==> !s.txns[t].CreateInserted?
  }

  // ------------------------------------------------------------ inserting a row

  lemma NewRowTakes(r: Resource, requesterId: Id, request: BookingRequest, now: int)
    requires request.startHour < request.endHour
    ensures Takes(NewBooking(r, requesterId, request, now), request)
  {
  }

  lemma FreeSlotInserts(db: Database, now: int, row: Booking, request: BookingRequest)
    requires TablesSound(db, now) && SlotFreeIn(db, request) && Takes(row, request)
    ensures !Excluded(db, row)
  {
    hide DayNumber, Operational;
    forall id | id in db.bookings
      ensures !Conflict(db.bookings[id], row)
    {
      StoredRowSound(db, id, now);
      assert TimeOrder(db.bookings[id]) by { assert SoundRow(db.bookings[id], now); }
      OverlapOnOneDate(db.bookings[id], row);
      hide SoundRow;
    }
  }

  lemma TakenSlotExcludes(db: Database, w: Id, row: Booking, request: BookingRequest)
    requires w in db.bookings && Takes(db.bookings[w], request) && Takes(row, request)
    ensures Excluded(db, row)
  {
    hide DayNumber;
    OverlapOnOneDate(db.bookings[w], row);
    assert Conflict(db.bookings[w], row);
  }

  // ------------------------------------------------------------------ one step

  /** Where a step of a burst leads, as long as the resource stays bookable. */
  datatype Move = Stays | Opens(x: Txn) | GoesOn(x: Txn) | Loses | Wins

  /** The step in terms of the phase of its transaction. */
  ghost predicate Moves(s: State, t: nat, action: Action, request: BookingRequest, move: Move) {
    var next := Step(s, t, action);
    match move
    case Stays => next.db == s.db && next.txns == s.txns && Answer(s, t, action) == []
    case Opens(x) =>
      t !in s.txns && next == s.Put(t, x) && Runs(s.db, x, request) && !x.CreateInserted?
      && Answer(s, t, action) == []
    case GoesOn(x) =>
      t in s.txns && next == s.Put(t, x) && Runs(s.db, x, request) && Answer(s, t, action) == []
      && (x.CreateInserted? ==> exists row :: Takes(row, request) && !Excluded(s.db, row))
    case Loses =>
      t in s.txns && next == s.Drop(t) && Answer(s, t, action) == [Some(Domain(BookingOverlap))]
      && exists row :: Takes(row, request) && Excluded(s.db, row)
    case Wins =>
      t in s.txns && s.txns[t].CreateInserted? && next == s.Write(t, Committed(s.db, s.txns[t]))
      && Answer(s, t, action) == [None]
  }

  lemma OpenStep(s: State, t: nat, requesterId: Id, request: BookingRequest) returns (move: Move)
    ensures Moves(s, t, BeginCreate(requesterId, request), request, move) && !move.Wins?
  {
    hide PassesDateCheck, DayNumber;
    if t in s.txns || RequestError(request, s.now).Some? {
      move := Stays;
    } else {
      move := Opens(CreateReady(requesterId, request));
    }
  }

  lemma LockStep(s: State, t: nat, request: BookingRequest) returns (move: Move)
    requires AllRun(s, request)
    ensures Moves(s, t, LockForCreate, request, move) && !move.Wins?
  {
    hide DayNumber, Operational, Takes;
    StepContinues(s, t, LockForCreate);
    if t in s.txns && s.txns[t].CreateReady? && s.ResourceFree(request.resourceId) {
      move := GoesOn(CreateLocked(s.txns[t].requesterId, request, s.db.resources[request.resourceId]));
    } else {
      move := Stays;
    }
    hide Step;
  }

  lemma FindStep(s: State, t: nat, request: BookingRequest) returns (move: Move)
    requires AllRun(s, request)
    ensures Moves(s, t, FindClosure, request, move) && !move.Wins?
  {
    hide DayNumber, Operational, Takes;
    StepContinues(s, t, FindClosure);
    if t in s.txns && s.txns[t].CreateLocked? {
      move := GoesOn(CreateOpen(s.txns[t].requesterId, request, s.txns[t].resource));
    } else {
      move := Stays;
    }
    hide Step;
  }

  /** Nobody in a burst has written a stored row. */
  lemma NothingAwaited(s: State, request: BookingRequest)
    requires AllRun(s, request)
    ensures forall row :: !Awaited(s, row)
  {
    assert forall t :: t in s.txns ==> Runs(s.db, s.txns[t], request);
  }

  lemma InsertStep(s: State, t: nat, newId: Id, request: BookingRequest) returns (move: Move)
    requires AllRun(s, request) && newId !in s.db.bookings && s.BookingFree(newId)
    ensures Moves(s, t, Insert(newId), request, move) && !move.Wins?
  {
    hide DayNumber, Operational, Takes, NewBooking, Excluded;
    StepContinues(s, t, Insert(newId));
    NothingAwaited(s, request);
    if t in s.txns && s.txns[t].CreateOpen? {
      var row := NewBooking(s.txns[t].resource, s.txns[t].requesterId, request, s.now);
      NewRowTakes(s.txns[t].resource, s.txns[t].requesterId, request, s.now);
      move := if Excluded(s.db, row) then Loses else GoesOn(CreateInserted(newId, row));
    } else {
      move := Stays;
    }
    hide Step;
  }

  lemma CommitStep(s: State, t: nat, request: BookingRequest) returns (move: Move)
    requires t in s.txns ==> s.txns[t].CreateInserted?
    ensures Moves(s, t, Commit, request, move)
    ensures t in s.txns <==> move.Wins?
  {
    StepContinues(s, t, Commit);
    if t in s.txns {
      CommitOf(s, t);
      move := Wins;
    } else {
      move := Stays;
    }
    hide Committed, Runs;
  }

  lemma TickStep(s: State, t: nat, elapsed: nat, request: BookingRequest)
    ensures Moves(s, t, Tick(elapsed), request, Stays)
  {
  }

  lemma BurstMoves(s: State, t: nat, action: Action, request: BookingRequest) returns (move: Move)
    requires AllRun(s, request) && BurstStep(s, t, action, request)
    ensures Moves(s, t, action, request, move)
  {
    hide AllRun, Moves;
    match action
    case Tick(elapsed) =>
      TickStep(s, t, elapsed, request);
      move := Stays;
    case BeginCreate(requesterId, _) => move := OpenStep(s, t, requesterId, request);
    case LockForCreate => move := LockStep(s, t, request);
    case FindClosure => move := FindStep(s, t, request);
    case Insert(newId) => move := InsertStep(s, t, newId, request);
    case Commit => move := CommitStep(s, t, request);
  }

  // --------------------------------------------------------------- before and after

  lemma SomeExcluded(db: Database, now: int, request: BookingRequest)
    requires TablesSound(db, now) && SlotFreeIn(db, request)
    ensures forall row :: Takes(row, request) ==> !Excluded(db, row)
  {
    forall row | Takes(row, request)
      ensures !Excluded(db, row)
    {
      FreeSlotInserts(db, now, row, request);
    }
  }

  lemma AllExcluded(db: Database, w: Id, request: BookingRequest)
    requires w in db.bookings && Takes(db.bookings[w], request)
    ensures forall row :: Takes(row, request) ==> Excluded(db, row)
  {
    forall row | Takes(row, request)
      ensures Excluded(db, row)
    {
      TakenSlotExcludes(db, w, row, request);
    }
  }

  lemma InvTables(s: State)
    requires Inv(s)
    ensures TablesSound(s.db, s.now)
  {
  }

  /** As long as the slot is free a step answers nobody, or answers the winner. */
  lemma RacingStep(s: State, t: nat, action: Action, db: Database, request: BookingRequest)
    requires Racing(s, db, request) && BurstStep(s, t, action, request)
    ensures var next := Step(s, t, action);
            (Answer(s, t, action) == [] && Racing(next, db, request))
            || (Answer(s, t, action) == [None] && exists w :: Over(next, db, w, request))
  {
    hide Inv, Step, Answer, BurstStep, TablesSound, SlotFreeIn, Takes, Excluded, Bookable, Row, Committed;
    InvTables(s);
    SomeExcluded(db, s.now, request);
    var move := BurstMoves(s, t, action, request);
    StepKeepsInv(s, t, action);
    if move.Wins? {
      var w := s.txns[t].newId;
      OnlyInserter(s, t, request);
      WinnerCommits(s, t, db, request);
      assert Over(Step(s, t, action), db, w, request);
    }
  }

  /** Only one transaction can have inserted: the others wait for the resource. */
  lemma OnlyInserter(s: State, t: nat, request: BookingRequest)
    requires Inv(s) && AllRun(s, request) && t in s.txns && s.txns[t].CreateInserted?
    ensures forall u :: u in s.txns && u != t ==> !s.txns[u].CreateInserted?
  {
    hide TablesSound, TxnSound, Takes, Runs, Bookable, ResourceHeld;
    InsertedHolds(s.db, s.txns[t], request);
    forall u | u in s.txns && u != t
      ensures !s.txns[u].CreateInserted?
    {
      if s.txns[u].CreateInserted? {
        InsertedHolds(s.db, s.txns[u], request);
      }
    }
  }

  lemma InsertedHolds(db: Database, x: Txn, request: BookingRequest)
    requires Runs(db, x, request) && x.CreateInserted?
    ensures ResourceHeld(x) == Some(request.resourceId)
  {
  }

  /** The winner's commit, for those who are left. */
  lemma WinnerCommits(s: State, t: nat, db: Database, request: BookingRequest)
    requires s.db == db && AllRun(s, request) && t in s.txns && s.txns[t].CreateInserted?
    requires forall u :: u in s.txns && u != t ==> !s.txns[u].CreateInserted?
    ensures var next := s.Write(t, Committed(s.db, s.txns[t]));
            WonBy(next.db, db, s.txns[t].newId, request) && AllRun(next, request)
            && forall u :: u in next.txns ==> !next.txns[u].CreateInserted?
  {
    hide Takes, Operational, DayNumber;
    var next := s.Write(t, Committed(s.db, s.txns[t]));
    assert Runs(s.db, s.txns[t], request);
    forall u | u in next.txns
      ensures Runs(next.db, next.txns[u], request)
    {
      assert Runs(s.db, s.txns[u], request);
    }
  }

  /** Once the slot is taken a step answers nobody, or answers with an overlap. */
  lemma OverStep(s: State, t: nat, action: Action, db: Database, w: Id, request: BookingRequest)
    requires Over(s, db, w, request) && BurstStep(s, t, action, request)
    ensures Over(Step(s, t, action), db, w, request)
    ensures Answer(s, t, action) == [] || Answer(s, t, action) == [Some(Domain(BookingOverlap))]
  {
    hide Inv, Step, Answer, BurstStep, Takes, Excluded, Bookable, Row, Committed;
    AllExcluded(s.db, w, request);
    var move := BurstMoves(s, t, action, request);
    StepKeepsInv(s, t, action);
  }

  // ---------------------------------------------------------------- the storm

  predicate AllOverlap(answers: seq<Option<Failure>>) {
    forall i :: 0 <= i < |answers| ==> answers[i] == Some(Domain(BookingOverlap))
  }

  /** The first is answered with a booking, all others with an overlap. */
  predicate OneWinner(answers: seq<Option<Failure>>) {
    forall i :: 0 <= i < |answers| ==> answers[i] == if i == 0 then None else Some(Domain(BookingOverlap))
  }

  lemma {:induction false} StormIsOver(s: State, schedule: seq<(nat, Action)>, db: Database, w: Id,
                                       request: BookingRequest)
    requires Over(s, db, w, request) && Burst(s, schedule, request)
    ensures Over(Exec(s, schedule), db, w, request) && AllOverlap(Answers(s, schedule))
    decreases schedule
  {
    hide Over, Step, Answer, BurstStep;
    if schedule != [] {
      OverStep(s, schedule[0].0, schedule[0].1, db, w, request);
      StormIsOver(Step(s, schedule[0].0, schedule[0].1), schedule[1..], db, w, request);
    }
  }

  lemma {:induction false} StormRaces(s: State, schedule: seq<(nat, Action)>, db: Database, request: BookingRequest)
    requires Racing(s, db, request) && Burst(s, schedule, request)
    ensures OneWinner(Answers(s, schedule))
    ensures if Answers(s, schedule) == [] then Racing(Exec(s, schedule), db, request)
            else exists w :: Over(Exec(s, schedule), db, w, request)
    decreases schedule
  {
    hide Over, Racing, Step, Answer, BurstStep;
    if schedule != [] {
      var next, rest := Step(s, schedule[0].0, schedule[0].1), schedule[1..];
      RacingStep(s, schedule[0].0, schedule[0].1, db, request);
      if Answer(s, schedule[0].0, schedule[0].1) == [] {
        StormRaces(next, rest, db, request);
        assert Answers(s, schedule) == [] + Answers(next, rest) == Answers(next, rest);
        assert Exec(s, schedule) == Exec(next, rest);
      } else {
        var w :| Over(next, db, w, request);
        StormIsOver(next, rest, db, w, request);
        assert Answers(s, schedule) == [None] + Answers(next, rest);
        assert Over(Exec(s, schedule), db, w, request);
      }
    }
  }

  /** A step opens its transaction, ends it, or changes neither. */
  lemma StepCounts(s: State, t: nat, action: Action)
    ensures var next := Step(s, t, action);
            |next.txns.Keys| == |s.txns.Keys|
                                + (if t !in s.txns && t in next.txns then 1 else 0)
                                - (if t in s.txns && t !in next.txns then 1 else 0)
  {
    StepKeys(s, t, action);
    hide Step;
  }

  lemma StepKeys(s: State, t: nat, action: Action)
    ensures var keys := Step(s, t, action).txns.Keys;
            keys == s.txns.Keys || keys == s.txns.Keys + {t} || keys == s.txns.Keys - {t}
  {
    hide Advance, Operational, Excluded, ScheduleConflicts, StatusConflicts, ClosureConflicts, Changed, ScheduleChanges,
      HasClosureId, RequestError, NewBooking, ClosureKey, DayNumber, PassesDateCheck, ExecuteCreateResource, Upserted,
      ExecuteImportClosure, Cleaned, CleanableFree, Committed;
  }

  /** Every opened transaction is still open or has been answered. */
  lemma {:induction false} AnswersCount(s: State, schedule: seq<(nat, Action)>)
    ensures |Answers(s, schedule)| + |Exec(s, schedule).txns.Keys| == |s.txns.Keys| + Opened(s, schedule)
    decreases schedule
  {
    hide Step, Reported;
    if schedule != [] {
      StepCounts(s, schedule[0].0, schedule[0].1);
      AnswersCount(Step(s, schedule[0].0, schedule[0].1), schedule[1..]);
    }
  }

  lemma NoneOpenYet(db: Database, now: int, request: BookingRequest)
    requires TablesSound(db, now) && SlotFreeIn(db, request)
    ensures Racing(State(now, db, map[]), db, request)
  {
    hide TablesSound, Operational, DayNumber;
  }

  /**
   * The storm: however the transactions of a burst for one free slot
   * interleave, those answered so far are one winner, first, and losers that
   * saw an overlap; the tables have gained the winner's row and nothing else;
   * and when none is open any more every one has been answered.
   */
  lemma StormInterleaved(db: Database, now: int, request: BookingRequest, schedule: seq<(nat, Action)>)
    requires TablesSound(db, now) && SlotFreeIn(db, request)
    requires Burst(State(now, db, map[]), schedule, request)
    ensures var s0 := State(now, db, map[]);
            var s, answers := Exec(s0, schedule), Answers(s0, schedule);
            OneWinner(answers) && |answers| + |s.txns.Keys| == Opened(s0, schedule)
            && if answers == [] then s.db == db else exists w :: WonBy(s.db, db, w, request)
  {
    var s0 := State(now, db, map[]);
    NoneOpenYet(db, now, request);
    StormRaces(s0, schedule, db, request);
    AnswersCount(s0, schedule);
    hide Inv, AllRun, SlotFreeIn, Exec, Answers, OneWinner, WonBy, TablesSound, Burst;
    if Answers(s0, schedule) != [] {
      var w :| Over(Exec(s0, schedule), db, w, request);
      assert WonBy(Exec(s0, schedule).db, db, w, request);
    }
  }
}
