/** The booking and resource services over mutable tables, each method one transaction. */
module Services {
  import opened Bookings
  import opened Calendar
  import opened Campus
  import opened CampusInvariants
  import opened Decimal
  import opened Resources
  import opened Wrappers

  /**
   * A transaction took `before` to `after`, published `published` and ended in `failure`, as its
   * specification says.
   */
  ghost predicate Performed(before: Database, command: Command, now: int, after: Database, published: seq<Event>,
                            failure: Option<Failure>) {
    Execute(before, command, now) == Outcome(after, failure, published)
  }

  /** With unique closure ids, deleting by id deletes the one closure and names its day. */
  lemma OnlyDeletion(db: Database, id: Id, closureId: Id, key: (Id, int))
    requires id in db.resources && IsClosure(db, id, closureId, key)
    requires forall k: (Id, int) :: IsClosure(db, id, closureId, k) ==> k == key
    ensures var left := map k | k in db.closures && !(k.0 == id && db.closures[k].id == closureId) :: db.closures[k];
            ExecuteDeleteClosure(db, id, closureId)
            == Outcome(db.(closures := left), None, [AvailabilityChanged(id, key.1)])
  {
    assert (map k | k in db.closures && !IsClosure(db, id, closureId, k) :: db.closures[k])
        == (map k | k in db.closures && !(k.0 == id && db.closures[k].id == closureId) :: db.closures[k]);
    assert ClosureKey(db, id, closureId) == Some(key);
  }

  class CampusServices {
    var resources: map<Id, Resource>
    var closures: map<(Id, int), Closure>
    var bookings: map<Id, Booking>
    /** Everything published to the event server so far. */
    var events: seq<Event>

    function Tables(): Database
      reads this
    {
      Database(resources, closures, bookings)
    }

    /** The latest clock read; the clock never goes back. */
    ghost var clock: int

    /** Every constraint holds, nobody is stranded and nothing is double-booked. */
    ghost predicate Valid()
      reads this
    {
      Sound(Tables(), clock)
    }

    constructor ()
      ensures Valid() && Tables() == Database(map[], map[], map[]) && events == []
    {
      resources, closures, bookings, events := map[], map[], map[], [];
    }

    /** The clock moves on. */
    ghost method Tick(now: int)
      requires Valid() && clock <= now
      modifies this`clock
      ensures Valid() && clock == now
    {
      SoundLater(Tables(), clock, now);
      hide Sound;
      clock := now;
    }

    /** The clock is read, and whatever the command then does as specified keeps the tables sound. */
    ghost method Read(command: Command, now: int)
      requires Valid() && clock <= now
      modifies this`clock
      ensures Valid() && clock == now
      ensures Sound(Execute(Tables(), command, now).db, now)
    {
      hide Sound, Execute;
      Tick(now);
      ExecuteKeepsSound(Tables(), command, now);
    }

    method NotifyAvailabilityChanged(resourceId: Id, day: int)
      modifies this`events
      ensures events == old(events) + [AvailabilityChanged(resourceId, day)]
    {
      events := events + [AvailabilityChanged(resourceId, day)];
    }

    method NotifyResourceChanged(resourceId: Id)
      modifies this`events
      ensures events == old(events) + [ResourceChanged(resourceId)]
    {
      events := events + [ResourceChanged(resourceId)];
    }

    /** `create` */
    method Create(requesterId: Id, request: BookingRequest, newId: Id, now: int) returns (failure: Option<Failure>)
      requires Valid() && clock <= now
      modifies this`bookings, this`events, this`clock
      ensures Valid() && clock == now && old(events) <= events
      ensures Performed(old(Tables()), CreateBooking(requesterId, request, newId), now, Tables(),
                        events[|old(events)|..], failure)
    {
      hide Sound, RequestError, Operational, DayNumber, Conflict;
      Read(CreateBooking(requesterId, request, newId), now);
      var invalid := RequestError(request, now);
      if invalid.Some? {
        return Some(Domain(invalid.value));
      }
      if request.resourceId !in resources {
        return Some(Domain(Error.ResourceNotFound));
      }
      var resource := resources[request.resourceId];
      var day := DayNumber(request.date);
      if !Operational(resource, day, request.startHour, request.endHour) || (request.resourceId, day) in closures {
        return Some(Domain(ResourceUnavailable));
      }
      var row := NewBooking(resource, requesterId, request, now);
      if newId in bookings {
        return Some(DuplicateKey);
      }
      if exists id :: id in bookings && Conflict(bookings[id], row) {
        return Some(Domain(BookingOverlap));
      }
      bookings := bookings[newId := row];
      NotifyAvailabilityChanged(row.resourceId, row.date);
      return None;
    }

    /** `approve` and `reject`, through `review`. */
    method Review(reviewerId: Id, bookingId: Id, verdict: Lifecycle, now: int) returns (failure: Option<Failure>)
      requires Valid() && clock <= now && (verdict.Approve? || verdict.Reject?) && verdict.reviewerId == reviewerId
      modifies this`bookings, this`events, this`clock
      ensures Valid() && clock == now && old(events) <= events
      ensures Performed(old(Tables()), Progress(bookingId, verdict), now, Tables(), events[|old(events)|..], failure)
    {
      hide Sound;
      Read(Progress(bookingId, verdict), now);
      if bookingId !in bookings {
        return Some(Domain(BookingNotFound));
      }
      var booking := bookings[bookingId];
      if booking.status != Pending {
        return Some(Domain(BookingNotPending));
      }
      if !CanReview(booking, now) {
        return Some(Domain(BookingReviewWindowEnded));
      }
      var status := if verdict.Approve? then Confirmed else Rejected;
      var reason: Option<string> := None;
      if verdict.Reject? {
        reason := Some(verdict.reason);
      }
      bookings := bookings[bookingId :=
        booking.(status := status, reviewedAt := Some(now), reviewedById := Some(reviewerId),
                 rejectionReason := reason)];
      NotifyAvailabilityChanged(booking.resourceId, booking.date);
      return None;
    }

    /** `requestCheckIn` */
    method GenerateCheckInCode(requesterId: Id, bookingId: Id, seed: CodeSeed, now: int)
        returns (failure: Option<Failure>)
      requires Valid() && clock <= now
      modifies this`bookings, this`clock
      ensures Valid() && clock == now
      ensures Performed(old(Tables()), Progress(bookingId, RequestCheckIn(requesterId, seed)), now, Tables(), [],
                        failure)
    {
      hide Sound;
      Read(Progress(bookingId, RequestCheckIn(requesterId, seed)), now);
      if bookingId !in bookings || bookings[bookingId].requesterId != requesterId {
        return Some(Domain(BookingNotFound));
      }
      var booking := bookings[bookingId];
      if booking.checkInRequestedAt.Some? || booking.checkInCode.Some? {
        return Some(Domain(CheckInAlreadyRequested));
      }
      if !CanRequestCheckIn(booking, now) {
        return Some(Domain(CheckInNotAvailable));
      }
      bookings := bookings[bookingId := booking.(checkInCode := Some(Padded(seed, 6)),
                                                 checkInRequestedAt := Some(now))];
      return None;
    }

    /** `confirmCheckIn` */
    method ConfirmCode(staffId: Id, bookingId: Id, code: string, now: int) returns (failure: Option<Failure>)
      requires Valid() && clock <= now
      modifies this`bookings, this`clock
      ensures Valid() && clock == now
      ensures Performed(old(Tables()), Progress(bookingId, ConfirmCheckIn(staffId, code)), now, Tables(), [], failure)
    {
      hide Sound;
      Read(Progress(bookingId, ConfirmCheckIn(staffId, code)), now);
      if bookingId !in bookings {
        return Some(Domain(BookingNotFound));
      }
      var booking := bookings[bookingId];
      if booking.status != Confirmed || booking.checkInCode.None? || !InCheckInWindow(booking, now) {
        return Some(Domain(CheckInNotAvailable));
      }
      if booking.checkInCode.value != code {
        return Some(Domain(InvalidCheckInCode));
      }
      bookings := bookings[bookingId :=
        booking.(status := CheckedIn, checkInCode := None, checkedInAt := Some(now), checkedInById := Some(staffId))];
      return None;
    }

    /** `checkOut` */
    method Complete(staffId: Id, bookingId: Id, now: int) returns (failure: Option<Failure>)
      requires Valid() && clock <= now
      modifies this`bookings, this`events, this`clock
      ensures Valid() && clock == now && old(events) <= events
      ensures Performed(old(Tables()), Progress(bookingId, CheckOut(staffId)), now, Tables(), events[|old(events)|..],
                        failure)
    {
      hide Sound;
      Read(Progress(bookingId, CheckOut(staffId)), now);
      if bookingId !in bookings {
        return Some(Domain(BookingNotFound));
      }
      var booking := bookings[bookingId];
      if booking.status != CheckedIn {
        return Some(Domain(BookingNotCheckedIn));
      }
      bookings := bookings[bookingId := booking.(status := Completed, checkedOutAt := Some(now),
                                                 checkedOutById := Some(staffId))];
      NotifyAvailabilityChanged(booking.resourceId, booking.date);
      return None;
    }

    /** `markNoShow` */
    method RecordNoShow(staffId: Id, bookingId: Id, now: int) returns (failure: Option<Failure>)
      requires Valid() && clock <= now
      modifies this`bookings, this`events, this`clock
      ensures Valid() && clock == now && old(events) <= events
      ensures Performed(old(Tables()), Progress(bookingId, MarkNoShow(staffId)), now, Tables(), events[|old(events)|..],
                        failure)
    {
      hide Sound;
      Read(Progress(bookingId, MarkNoShow(staffId)), now);
      if bookingId !in bookings {
        return Some(Domain(BookingNotFound));
      }
      var booking := bookings[bookingId];
      if booking.status != Confirmed || now < booking.EndMs() {
        return Some(Domain(NoShowNotAvailable));
      }
      bookings := bookings[bookingId :=
        booking.(status := NoShow, checkInCode := None, noShowAt := Some(now), noShowById := Some(staffId))];
      NotifyAvailabilityChanged(booking.resourceId, booking.date);
      return None;
    }

    /** `cancel` */
    method CancelBooking(requesterId: Id, bookingId: Id, now: int) returns (failure: Option<Failure>)
      requires Valid() && clock <= now
      modifies this`bookings, this`events, this`clock
      ensures Valid() && clock == now && old(events) <= events
      ensures Performed(old(Tables()), Progress(bookingId, Cancel(requesterId)), now, Tables(), events[|old(events)|..],
                        failure)
    {
      hide Sound;
      Read(Progress(bookingId, Cancel(requesterId)), now);
      if bookingId !in bookings || bookings[bookingId].requesterId != requesterId {
        return Some(Domain(BookingNotFound));
      }
      var booking := bookings[bookingId];
      if !CanCancel(booking, now) {
        return Some(Domain(BookingNotCancellable));
      }
      bookings := bookings[bookingId := booking.(status := Cancelled, cancelledAt := Some(now))];
      NotifyAvailabilityChanged(booking.resourceId, booking.date);
      return None;
    }

    /** `create` of the resources service. */
    method AddResource(newId: Id, draft: ResourceDraft, now: int) returns (failure: Option<Failure>)
      requires Valid() && clock <= now
      modifies this`resources, this`clock
      ensures Valid() && clock == now
      ensures Performed(old(Tables()), CreateResource(newId, draft), now, Tables(), [], failure)
    {
      hide Sound;
      Read(CreateResource(newId, draft), now);
      var row := NewResource(draft, now);
      if row.opensAt >= row.closesAt {
        return Some(InvalidOperatingHours);
      }
      if CodeTaken(Tables(), draft.code) {
        return Some(ResourceCodeAlreadyExists);
      }
      if newId in resources {
        return Some(DuplicateKey);
      }
      resources := resources[newId := row];
      return None;
    }

    /** `detailChanges`, written over the row property by property. */
    method DetailChanges(locked: Resource, change: ResourceChange) returns (row: Resource)
      ensures row == Changed(locked, change)
    {
      row := locked;
      if change.requiresApproval.Some? {
        row := row.(requiresApproval := change.requiresApproval.value);
      }
      if change.operatingDays.Some? {
        row := row.(operatingDays := change.operatingDays.value);
      }
      if change.opensAt.Some? {
        row := row.(opensAt := change.opensAt.value);
      }
      if change.closesAt.Some? {
        row := row.(closesAt := change.closesAt.value);
      }
    }

    /** `update` */
    method Update(resourceId: Id, change: ResourceChange, now: int) returns (failure: Option<Failure>)
      requires Valid() && clock <= now
      modifies this`resources, this`events, this`clock
      ensures Valid() && clock == now && old(events) <= events
      ensures Performed(old(Tables()), UpdateResource(resourceId, change), now, Tables(), events[|old(events)|..],
                        failure)
    {
      hide Sound;
      Read(UpdateResource(resourceId, change), now);
      if resourceId !in resources {
        return Some(UnknownResource);
      }
      var locked := resources[resourceId];
      var row := DetailChanges(locked, change);
      hide Changed, ScheduleConflicts;
      if row.opensAt >= row.closesAt {
        return Some(InvalidOperatingHours);
      }
      if row.operatingDays != locked.operatingDays || row.opensAt != locked.opensAt || row.closesAt != locked.closesAt {
        var conflicts := ScheduleConflicts(Tables(), resourceId, row, now);
        if |conflicts| != 0 {
          return Some(HasActiveBookings(|conflicts|));
        }
      }
      resources := resources[resourceId := row];
      NotifyResourceChanged(resourceId);
      return None;
    }

    /** `updateStatus` */
    method ChangeStatus(resourceId: Id, status: ResourceStatus, now: int) returns (failure: Option<Failure>)
      requires Valid() && clock <= now
      modifies this`resources, this`events, this`clock
      ensures Valid() && clock == now && old(events) <= events
      ensures Performed(old(Tables()), UpdateStatus(resourceId, status), now, Tables(), events[|old(events)|..],
                        failure)
    {
      hide Sound;
      Read(UpdateStatus(resourceId, status), now);
      if resourceId !in resources {
        return Some(UnknownResource);
      }
      if status != Active {
        var conflicts := StatusConflicts(Tables(), resourceId, now);
        if |conflicts| != 0 {
          return Some(HasActiveBookings(|conflicts|));
        }
      }
      resources := resources[resourceId := resources[resourceId].(status := status)];
      NotifyResourceChanged(resourceId);
      return None;
    }

    /** `createClosure` */
    method Close(resourceId: Id, date: WrittenDate, closure: Closure, now: int) returns (failure: Option<Failure>)
      requires Valid() && clock <= now
      modifies this`closures, this`events, this`clock
      ensures Valid() && clock == now && old(events) <= events
      ensures Performed(old(Tables()), CreateClosure(resourceId, date, closure), now, Tables(), events[|old(events)|..],
                        failure)
    {
      hide Sound, PassesDateCheck, DayNumber, ClosureConflicts, HasClosureId;
      Read(CreateClosure(resourceId, date, closure), now);
      if !PassesDateCheck(date) {
        return Some(InvalidAvailabilityDate);
      }
      if resourceId !in resources {
        return Some(UnknownResource);
      }
      var day := DayNumber(date);
      var conflicts := ClosureConflicts(Tables(), resourceId, day, now);
      if |conflicts| != 0 {
        return Some(HasActiveBookings(|conflicts|));
      }
      if (resourceId, day) in closures {
        return Some(ClosureAlreadyExists);
      }
      if HasClosureId(Tables(), closure.id) {
        return Some(DuplicateKey);
      }
      closures := closures[(resourceId, day) := closure];
      NotifyAvailabilityChanged(resourceId, day);
      return None;
    }

    /** `deleteClosure`: the closure is read first, to name its date in the event. */
    method Reopen(resourceId: Id, closureId: Id, ghost now: int) returns (failure: Option<Failure>)
      requires Valid() && clock <= now
      modifies this`closures, this`events, this`clock
      ensures Valid() && clock == now && old(events) <= events
      ensures Performed(old(Tables()), DeleteClosure(resourceId, closureId), now, Tables(), events[|old(events)|..],
                        failure)
    {
      hide Sound;
      Read(DeleteClosure(resourceId, closureId), now);
      SoundParts(Tables(), now);
      var found := set k | k in closures && IsClosure(Tables(), resourceId, closureId, k);
      if resourceId !in resources {
        return Some(UnknownResource);
      }
      assert forall k: (Id, int) :: IsClosure(Tables(), resourceId, closureId, k) <==> k in found;
      if found == {} {
        return Some(ClosureNotFound);
      }
      var key :| key in found;
      assert IsClosure(Tables(), resourceId, closureId, key);
      assert forall k: (Id, int) :: IsClosure(Tables(), resourceId, closureId, k) ==> k == key;
      OnlyDeletion(Tables(), resourceId, closureId, key);
      closures := map k | k in closures && !(k.0 == resourceId && closures[k].id == closureId) :: closures[k];
      NotifyAvailabilityChanged(resourceId, key.1);
      return None;
    }
  }
}
