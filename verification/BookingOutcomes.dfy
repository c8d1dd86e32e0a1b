/**
 * What the booking service answers and writes, case by case, in terms of rows,
 * hours and instants: which error each refusal gives, and the exact row and
 * event of each success.
 */
module BookingOutcomes {
  import opened Agreement
  import opened Bookings
  import opened Calendar
  import opened Campus
  import opened CampusClock
  import opened Decimal
  import opened Resources
  import opened Wrappers

  // ------------------------------------------------------------------ create

  /** A date of the calendar that the `Date.UTC` round trip recognises. */
  predicate Recognised(date: Civil) {
    1 <= date.month <= 12 && 1 <= date.day <= DaysInMonth(date.year, date.month) && date.year >= 100
  }

  /** The request names a date, ordered hours and a start that is still to come. */
  predicate WellTimed(request: BookingRequest, now: int) {
    Recognised(request.date) && request.startHour < request.endHour
    && now < HourMs(DayNumber(request.date), request.startHour)
  }

  /** The resource is in service, operates on the weekday and at the hours, and has no closure that day. */
  predicate Serves(db: Database, request: BookingRequest) {
    var id, day := request.resourceId, DayNumber(request.date);
    id in db.resources
    && db.resources[id].status == Active
    && WeekdayOf(day) in db.resources[id].operatingDays
    && db.resources[id].opensAt <= request.startHour && request.endHour <= db.resources[id].closesAt
    && (id, day) !in db.closures
  }

  /** A pending, confirmed or checked-in booking of the resource has an hour of the request that day. */
  ghost predicate Taken(db: Database, request: BookingRequest) {
    exists id :: id in db.bookings && Overlaps(db.bookings[id], request)
  }

  predicate Overlaps(b: Booking, request: BookingRequest) {
    b.status in {Pending, Confirmed, CheckedIn}
    && b.resourceId == request.resourceId && b.date == DayNumber(request.date)
    && b.startHour < request.endHour && request.startHour < b.endHour
  }

  lemma RecognisedExactly(date: WrittenDate)
    ensures PassesDateCheck(date) <==> Recognised(date)
  {
    DateCheckExact(date);
    hide PassesDateCheck;
  }

  lemma RequestRefusals(request: BookingRequest, now: int)
    ensures var invalid := RequestError(request, now);
            (invalid == Some(InvalidBookingDate) <==> !Recognised(request.date))
            && (invalid == Some(InvalidBookingRange) <==>
                  Recognised(request.date) && request.endHour <= request.startHour)
            && (invalid == Some(BookingInPast) <==>
                  Recognised(request.date) && request.startHour < request.endHour
                  && HourMs(DayNumber(request.date), request.startHour) <= now)
            && (invalid == None <==> WellTimed(request, now))
            && invalid in {None, Some(InvalidBookingDate), Some(InvalidBookingRange), Some(BookingInPast)}
  {
    hide PassesDateCheck, DayNumber, DaysInMonth;
    RecognisedExactly(request.date);
    hide Recognised;
  }

  lemma TakenExactly(db: Database, requesterId: Id, request: BookingRequest, now: int)
    requires HoursOrdered(db) && request.resourceId in db.resources && request.startHour < request.endHour
    ensures Excluded(db, NewBooking(db.resources[request.resourceId], requesterId, request, now))
            <==> Taken(db, request)
  {
    hide DayNumber;
    var row := NewBooking(db.resources[request.resourceId], requesterId, request, now);
    forall id | id in db.bookings
      ensures Conflict(db.bookings[id], row) <==> Overlaps(db.bookings[id], request)
    {
      OverlapOnOneDate(db.bookings[id], row);
      hide PeriodsOverlap, PeriodOf;
    }
  }

  lemma ServesExactly(db: Database, request: BookingRequest)
    requires request.resourceId in db.resources
    ensures var r, day := db.resources[request.resourceId], DayNumber(request.date);
            Serves(db, request)
            <==> Operational(r, day, request.startHour, request.endHour) && !db.Closed(request.resourceId, day)
  {
    hide DayNumber, WeekdayOf;
  }

  /** Which error `create` answers with, in every case. */
  lemma CreateRefusals(db: Database, requesterId: Id, request: BookingRequest, newId: Id, now: int)
    requires HoursOrdered(db)
    ensures var failure := ExecuteCreate(db, requesterId, request, newId, now).failure;
            var timed, there, served := WellTimed(request, now), request.resourceId in db.resources,
              Serves(db, request);
            (failure == Some(Domain(InvalidBookingDate)) <==> !Recognised(request.date))
            && (failure == Some(Domain(InvalidBookingRange)) <==>
                  Recognised(request.date) && request.endHour <= request.startHour)
            && (failure == Some(Domain(BookingInPast)) <==>
                  Recognised(request.date) && request.startHour < request.endHour
                  && HourMs(DayNumber(request.date), request.startHour) <= now)
            && (failure == Some(Domain(Error.ResourceNotFound)) <==> timed && !there)
            && (failure == Some(Domain(ResourceUnavailable)) <==> timed && there && !served)
            && (failure == Some(DuplicateKey) <==> timed && served && newId in db.bookings)
            && (failure == Some(Domain(BookingOverlap)) <==>
                  timed && served && newId !in db.bookings && Taken(db, request))
            && (failure == None <==> timed && served && newId !in db.bookings && !Taken(db, request))
  {
    RequestRefusals(request, now);
    hide RequestError, Recognised, WellTimed, Operational, Excluded, NewBooking, Taken, DayNumber, Serves;
    if WellTimed(request, now) && request.resourceId in db.resources {
      TimedIsOrdered(request, now);
      ServesExactly(db, request);
      TakenExactly(db, requesterId, request, now);
    }
    ServesExists(db, request);
  }

  lemma TimedIsOrdered(request: BookingRequest, now: int)
    requires WellTimed(request, now)
    ensures request.startHour < request.endHour
  {
  }

  lemma ServesExists(db: Database, request: BookingRequest)
    ensures Serves(db, request) ==> request.resourceId in db.resources
  {
  }

  /** What `create` writes and publishes: one row and one event, or nothing. */
  lemma CreateWrites(db: Database, requesterId: Id, request: BookingRequest, newId: Id, now: int)
    ensures var out := ExecuteCreate(db, requesterId, request, newId, now);
            if out.failure.Some? then out.db == db && out.events == []
            else
              request.resourceId in db.resources
              && var day := DayNumber(request.date);
                 var status := if db.resources[request.resourceId].requiresApproval then Pending else Confirmed;
                 var row := Booking(request.resourceId, requesterId, day, request.startHour, request.endHour, status,
                                    now,
                                    None, None, None, None, None, None, None, None, None, None, None, None);
                 out.db == Database(db.resources, db.closures, db.bookings[newId := row])
                 && out.events == [AvailabilityChanged(request.resourceId, day)]
  {
    hide RequestError, Operational, Excluded, DayNumber;
  }

  // --------------------------------------------------------------- lifecycle

  /** A request is decided once, by whom and when is recorded, and only before its end. */
  lemma ReviewOutcome(b: Booking, staff: Id, reason: Reason, t: int)
    ensures b.status == Pending && t < HourMs(b.date, b.endHour) ==>
              Advance(b, Approve(staff), t)
              == Ok(b.(status := Confirmed, reviewedAt := Some(t), reviewedById := Some(staff),
                       rejectionReason := None))
              && Advance(b, Reject(staff, reason), t)
              == Ok(b.(status := Rejected, reviewedAt := Some(t), reviewedById := Some(staff),
                       rejectionReason := Some(reason)))
    ensures b.status == Pending && HourMs(b.date, b.endHour) <= t ==>
              Advance(b, Approve(staff), t) == Err(BookingReviewWindowEnded)
              && Advance(b, Reject(staff, reason), t) == Err(BookingReviewWindowEnded)
    ensures b.status != Pending ==>
              Advance(b, Approve(staff), t) == Err(BookingNotPending)
              && Advance(b, Reject(staff, reason), t) == Err(BookingNotPending)
  {
  }

  lemma {:induction false} PaddedReads(n: nat)
    requires n < 1_000_000
    ensures |Padded(n, 6)| == 6 && AllDigits(Padded(n, 6)) && Value(Padded(n, 6)) == n
  {
    assert Pow10(6) == 1_000_000 by {
      Pow10Step(6);
      Pow10Step(5);
      Pow10Step(4);
      Pow10Step(3);
      Pow10Step(2);
      Pow10Step(1);
    }
    ValueOfPadded(n, 6);
  }

  /** The instants from fifteen minutes before the start up to the end. */
  predicate AtTheDoor(b: Booking, t: int) {
    HourMs(b.date, b.startHour) - 900_000 <= t < HourMs(b.date, b.endHour)
  }

  /**
   * The requester of a confirmed booking gets one code, six digits that read as the number drawn,
   * while at the door.
   */
  lemma RequestCheckInOutcome(b: Booking, requester: Id, seed: CodeSeed, now: int, t: int)
    requires SoundRow(b, now)
    ensures var r := Advance(b, RequestCheckIn(requester, seed), t);
            (r == Err(BookingNotFound) <==> requester != b.requesterId)
            && (r == Err(CheckInAlreadyRequested) <==> requester == b.requesterId && b.checkInRequestedAt.Some?)
            && (r == Err(CheckInNotAvailable) <==>
                  requester == b.requesterId && b.checkInRequestedAt.None?
                    && !(b.status == Confirmed && AtTheDoor(b, t)))
            && (requester == b.requesterId && b.checkInRequestedAt.None? && b.status == Confirmed && AtTheDoor(b, t) ==>
                  r.Ok? && r.value.checkInCode.Some?
                  && var code := r.value.checkInCode.value;
                     |code| == 6 && AllDigits(code) && Value(code) == seed
                     && r.value == b.(checkInCode := Some(code), checkInRequestedAt := Some(t)))
  {
    PaddedReads(seed);
    hide Padded, AllDigits, Value, WireDay, Btrim, HourMs;
  }

  /** The code of a confirmed booking lets its holder in while at the door, and is spent. */
  lemma ConfirmCheckInOutcome(b: Booking, staff: Id, code: string, now: int, t: int)
    requires SoundRow(b, now)
    ensures var r := Advance(b, ConfirmCheckIn(staff, code), t);
            var asked := b.status == Confirmed && b.checkInRequestedAt.Some? && AtTheDoor(b, t);
            (r == Err(CheckInNotAvailable) <==> !asked)
            && (r == Err(InvalidCheckInCode) <==> asked && b.checkInCode != Some(code))
            && (asked && b.checkInCode == Some(code) ==>
                  r == Ok(b.(status := CheckedIn, checkInCode := None, checkedInAt := Some(t),
                             checkedInById := Some(staff))))
  {
    hide AllDigits, WireDay, Btrim, HourMs;
  }

  /**
   * The three ways a booking ends: a visitor who is in is checked out at any time; once a confirmed
   * booking has ended it can be recorded as a no-show, which forgets its code; the requester can
   * cancel until the start, and before a code was generated.
   */
  lemma EndOutcomes(b: Booking, staff: Id, requester: Id, t: int)
    ensures Advance(b, CheckOut(staff), t)
         == if b.status == CheckedIn
            then Ok(b.(status := Completed, checkedOutAt := Some(t), checkedOutById := Some(staff)))
            else Err(BookingNotCheckedIn)
    ensures Advance(b, MarkNoShow(staff), t)
         == if b.status == Confirmed && HourMs(b.date, b.endHour) <= t
            then Ok(b.(status := NoShow, checkInCode := None, noShowAt := Some(t), noShowById := Some(staff)))
            else Err(NoShowNotAvailable)
    ensures Advance(b, Cancel(requester), t)
         == if requester != b.requesterId then Err(BookingNotFound)
            else if b.status in {Pending, Confirmed} && b.checkInRequestedAt.None? && t < HourMs(b.date, b.startHour)
            then Ok(b.(status := Cancelled, cancelledAt := Some(t)))
            else Err(BookingNotCancellable)
  {
  }

  /** A command writes its row and announces the day, but for the two check-in steps; a refusal does neither. */
  lemma ProgressWrites(db: Database, id: Id, command: Lifecycle, now: int)
    ensures var out := ExecuteProgress(db, id, command, now);
            if id !in db.bookings then out == Outcome(db, Some(Domain(BookingNotFound)), [])
            else
              match Advance(db.bookings[id], command, now)
              case Err(error) => out == Outcome(db, Some(Domain(error)), [])
              case Ok(row) =>
                out.db == Database(db.resources, db.closures, db.bookings[id := row]) && out.failure == None
                && out.events == if command.RequestCheckIn? || command.ConfirmCheckIn? then []
                                 else [AvailabilityChanged(db.bookings[id].resourceId, db.bookings[id].date)]
  {
    hide Advance;
  }
}
