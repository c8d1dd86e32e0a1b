/**
 * From empty tables to an analytics summary that the frontend refuses: a visit, and then a change of
 * operating days.
 */
module SummaryRefusal {
  import opened Analytics
  import opened Bookings
  import opened Calendar
  import opened Campus
  import opened CampusClock
  import opened CampusInvariants
  import opened CampusRuns
  import opened Capacity
  import opened Decimal
  import opened Resources
  import opened Tallies
  import opened Timeline
  import opened Wrappers

  const EVERY_DAY: Weekdays := {0, 1, 2, 3, 4, 5, 6}

  const EMPTY := Database(map[], map[], map[])

  function Lab(): ResourceDraft {
    ResourceDraft("LAB", Some(EVERY_DAY), Some(8), Some(18), Some(false))
  }

  function OneHour(day: int): BookingRequest
    requires WireDay(day)
  {
    BookingRequest(7, CivilOf(day), 8, 9)
  }

  function Opening(day: int): int {
    HourMs(day, 8)
  }

  function OtherDays(day: int): Weekdays {
    var others := EVERY_DAY - {WeekdayOf(day)};
    assert (if WeekdayOf(day) == 0 then 1 else 0) in others;
    others
  }

  /** The student comes and leaves, and the weekday is dropped. */
  function VisitAndChange(day: int): seq<Timed> {
    [Timed(Progress(1, RequestCheckIn(5, 0)), Opening(day)),
     Timed(Progress(1, ConfirmCheckIn(6, Padded(0, 6))), Opening(day)),
     Timed(Progress(1, CheckOut(6)), Opening(day)),
     Timed(UpdateResource(7, ResourceChange(Some(OtherDays(day)), None, None, None)), Opening(day))]
  }

  /** The resource and the booking are made two hours ahead of the visit. */
  function RefusedRun(day: int): seq<Timed>
    requires WireDay(day)
  {
    var early := Opening(day) - 2 * HOUR_MS;
    [Timed(CreateResource(7, Lab()), early)] + ([Timed(CreateBooking(5, OneHour(day), 1), early)] + VisitAndChange(day))
  }

  /** The booking row at each stage. */
  function Booked(day: int): Booking {
    Booking(7, 5, day, 8, 9, Confirmed, Opening(day) - 2 * HOUR_MS,
            None, None, None, None, None, None, None, None, None, None, None, None)
  }

  function Requested(day: int): Booking {
    Booked(day).(checkInCode := Some(Padded(0, 6)), checkInRequestedAt := Some(Opening(day)))
  }

  function Entered(day: int): Booking {
    Requested(day).(status := CheckedIn, checkInCode := None, checkedInAt := Some(Opening(day)),
                    checkedInById := Some(6))
  }

  function Left(day: int): Booking {
    Entered(day).(status := Completed, checkedOutAt := Some(Opening(day)), checkedOutById := Some(6))
  }

  function LabRow(day: int): Resource {
    Resource("LAB", Active, EVERY_DAY, 8, 18, false, Opening(day) - 2 * HOUR_MS)
  }

  function With(day: int, b: Booking): Database {
    Database(map[7 := LabRow(day)], map[], map[1 := b])
  }

  lemma Step1(day: int)
    ensures Execute(EMPTY, CreateResource(7, Lab()), Opening(day) - 2 * HOUR_MS).db
            == Database(map[7 := LabRow(day)], map[], map[])
  {
  }

  lemma Step2(day: int)
    requires WireDay(day)
    ensures Execute(Database(map[7 := LabRow(day)], map[], map[]), CreateBooking(5, OneHour(day), 1),
                    Opening(day) - 2 * HOUR_MS).db
         == With(day, Booked(day))
  {
    DateCheckExact(CivilOf(day));
    CivilRoundTrip(day);
    hide PassesDateCheck, DayNumber, CivilOf, WeekdayOf;
  }

  lemma Visit(day: int)
    ensures Advance(Booked(day), RequestCheckIn(5, 0), Opening(day)) == Ok(Requested(day))
    ensures Advance(Requested(day), ConfirmCheckIn(6, Padded(0, 6)), Opening(day)) == Ok(Entered(day))
    ensures Advance(Entered(day), CheckOut(6), Opening(day)) == Ok(Left(day))
  {
  }

  lemma StepVisit(day: int, before: Booking, command: Lifecycle, after: Booking)
    requires Advance(before, command, Opening(day)) == Ok(after)
    ensures Execute(With(day, before), Progress(1, command), Opening(day)).db == With(day, after)
  {
    hide Advance;
    assert map[1 := before][1 := after] == map[1 := after];
  }

  /** The tables at the end. */
  function Final(day: int): Database {
    Database(map[7 := LabRow(day).(operatingDays := OtherDays(day))], map[], map[1 := Left(day)])
  }

  lemma StepUpdate(day: int)
    ensures Execute(With(day, Left(day)), UpdateResource(7, ResourceChange(Some(OtherDays(day)), None, None, None)),
                    Opening(day)).db
         == Final(day)
  {
    var after := LabRow(day).(operatingDays := OtherDays(day));
    assert ScheduleConflicts(With(day, Left(day)), 7, after, Opening(day)) == {};
    hide OtherDays;
  }

  lemma ReplayFirst(db: Database, step: Timed, rest: seq<Timed>)
    ensures Replay(db, [step] + rest) == Replay(Execute(db, step.command, step.now).db, rest)
  {
    hide Execute;
    assert ([step] + rest)[1..] == rest;
  }

  lemma VisitEnds(day: int)
    ensures Replay(With(day, Booked(day)), VisitAndChange(day)) == Final(day)
  {
    Visit(day);
    StepVisit(day, Booked(day), RequestCheckIn(5, 0), Requested(day));
    StepVisit(day, Requested(day), ConfirmCheckIn(6, Padded(0, 6)), Entered(day));
    StepVisit(day, Entered(day), CheckOut(6), Left(day));
    StepUpdate(day);
    hide Replay, Booked, Requested, Entered, Left, LabRow, With, Final, OtherDays, Opening, Advance, Execute, Padded;
    var run := VisitAndChange(day);
    assert run == [run[0]] + ([run[1]] + ([run[2]] + ([run[3]] + [])));
    ReplayFirst(With(day, Booked(day)), run[0], [run[1]] + ([run[2]] + ([run[3]] + [])));
    ReplayFirst(With(day, Requested(day)), run[1], [run[2]] + ([run[3]] + []));
    ReplayFirst(With(day, Entered(day)), run[2], [run[3]] + []);
    ReplayFirst(With(day, Left(day)), run[3], []);
    ReplayNothing(Final(day));
  }

  lemma ReplayTwo(db: Database, first: Timed, second: Timed, rest: seq<Timed>, middle: Database, last: Database)
    requires Execute(db, first.command, first.now).db == middle
             && Execute(middle, second.command, second.now).db == last
    ensures Replay(db, [first] + ([second] + rest)) == Replay(last, rest)
  {
    hide Execute, Replay;
    ReplayFirst(db, first, [second] + rest);
    ReplayFirst(middle, second, rest);
  }

  lemma RunEnds(day: int)
    requires WireDay(day)
    ensures Replay(EMPTY, RefusedRun(day)) == Final(day)
  {
    hide Replay, Execute, Booked, LabRow, With, Final, OneHour, Opening, Lab, VisitAndChange, WireDay, CivilOf;
    var early, rest := Opening(day) - 2 * HOUR_MS, VisitAndChange(day);
    Step1(day);
    Step2(day);
    VisitEnds(day);
    ReplayTwo(EMPTY, Timed(CreateResource(7, Lab()), early), Timed(CreateBooking(5, OneHour(day), 1), early), rest,
              Database(map[7 := LabRow(day)], map[], map[]), With(day, Booked(day)));
  }

  lemma ReplayNothing(db: Database)
    ensures Replay(db, []) == db
  {
  }

  lemma EmptyIsSound(now: int)
    ensures Sound(EMPTY, now)
  {
  }

  lemma {:induction false} SameTime(run: seq<Timed>, now: int)
    requires forall i :: 0 <= i < |run| ==> run[i].now == now
    ensures ClockAdvances(now, run)
    decreases run
  {
    if run != [] {
      SameTime(run[1..], now);
    }
  }

  lemma RunIsTimely(day: int)
    requires WireDay(day)
    ensures ClockAdvances(Opening(day) - 2 * HOUR_MS, RefusedRun(day))
  {
    hide OneHour, OtherDays, Opening, Lab, Padded;
    var run, rest := RefusedRun(day), VisitAndChange(day);
    SameTime(rest, Opening(day));
    assert run[1..][1..] == rest;
    assert ClockAdvances(Opening(day) - 2 * HOUR_MS, rest);
  }

  /**
   * On every day, six commands from empty tables lead to sound tables whose summary of that day the
   * frontend refuses.
   */
  lemma RefusedSummaryIsReachable(day: int)
    requires WireDay(day)
    ensures ClockAdvances(Opening(day) - 2 * HOUR_MS, RefusedRun(day))
    ensures var db := Replay(EMPTY, RefusedRun(day));
            var rows, popular := [Stored(1, Left(day))], [PopularRow(7, "LAB", 1, 1)];
            var catalog := [HoursOf(7, LabRow(day).(operatingDays := OtherDays(day)))];
            Sound(db, Opening(day))
            && Answers(db, day, day, rows, popular, catalog, [])
            && !SummaryAccepted(SummaryOf(day, day, rows, popular, catalog, NamedDays([], day, day)))
  {
    RunIsTimely(day);
    RunEnds(day);
    EmptyIsSound(Opening(day) - 2 * HOUR_MS);
    EveryRunSound(EMPTY, Opening(day) - 2 * HOUR_MS, RefusedRun(day));
    var r := LabRow(day).(operatingDays := OtherDays(day));
    assert Hours(Left(day)) == 1;
    hide Sound, Answers, SummaryAccepted, SummaryOf, Replay;
    RefusedSummary(day, Left(day), r);
  }
}
