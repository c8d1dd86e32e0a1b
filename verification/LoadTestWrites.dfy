/** The write phases of the load test as clients of the booking service. */
module LoadTestWrites {
  import opened Agreement
  import opened BookingStories
  import opened Bookings
  import opened Calendar
  import opened Campus
  import opened CampusClock
  import opened CampusInvariants
  import opened LoadTestSlots
  import opened Resources
  import opened Services
  import opened Wrappers

  /** The resource operates on the day and hours, is open, and no booking is in the way. */
  ghost predicate FreeAt(db: Database, id: Id, day: int, s: nat, e: nat) {
    id in db.resources && Operational(db.resources[id], day, s, e) && !db.Closed(id, day)
    && !exists b :: db.Blocks(b, id, day) && db.bookings[b].startHour < e && db.bookings[b].endHour > s
  }

  lemma FreeIsBookable(db: Database, requesterId: Id, request: BookingRequest, newId: Id, now: int)
    requires HoursOrdered(db) && newId !in db.bookings && PassesDateCheck(request.date)
             && request.startHour < request.endHour
    requires FreeAt(db, request.resourceId, DayNumber(request.date), request.startHour, request.endHour)
    requires IsFuture(DayNumber(request.date), request.startHour, now)
    ensures CreateSucceeds(db, requesterId, request, newId, now)
  {
    CreateIsBookable(db, requesterId, request, newId, now);
    hide DayNumber, PassesDateCheck, Operational, CreateSucceeds;
  }

  lemma SoundHours(db: Database, now: int)
    requires Sound(db, now)
    ensures HoursOrdered(db)
  {
    SoundParts(db, now);
  }

  // -------------------------------------------------------- distinct slots

  /** Open from 07:00 to 22:00 every day, with nothing closed or booked from the first day on. */
  ghost predicate OpenFrom(db: Database, id: Id, firstDay: int) {
    id in db.resources && db.resources[id].status == Active && db.resources[id].operatingDays == {0, 1, 2, 3, 4, 5, 6}
    && db.resources[id].opensAt <= 7 && 22 <= db.resources[id].closesAt
    && (forall day :: firstDay <= day ==> !db.Closed(id, day))
    && forall b :: b in db.bookings && db.bookings[b].resourceId == id && firstDay <= db.bookings[b].date ==>
         !db.bookings[b].Blocking()
  }

  lemma OpenIsFree(db: Database, id: Id, firstDay: int, day: int, s: nat)
    requires OpenFrom(db, id, firstDay) && firstDay <= day && 7 <= s <= 21
    ensures FreeAt(db, id, day, s, s + 1)
  {
  }

  /** The k-th request: the slot's resource, date and hour. */
  function RequestAt(k: nat, ids: seq<Id>, firstDay: int): BookingRequest
    requires ids != [] && WireDay(PlaceOf(k, |ids|, firstDay).1)
  {
    var (index, day, start) := PlaceOf(k, |ids|, firstDay);
    SlotHours(k, |ids|, firstDay);
    BookingRequest(ids[index], CivilOf(day), start, start + 1)
  }

  ghost predicate SlotFree(db: Database, k: nat, ids: seq<Id>, firstDay: int)
    requires ids != []
  {
    var (index, day, start) := PlaceOf(k, |ids|, firstDay);
    FreeAt(db, ids[index], day, start, start + 1)
  }

  /** Taking one slot leaves the others free. */
  lemma OtherSlotsStayFree(db: Database, requesterId: Id, request: BookingRequest, newId: Id, now: int, id: Id,
                           day: int, s: nat)
    requires CreateSucceeds(db, requesterId, request, newId, now) && FreeAt(db, id, day, s, s + 1)
    requires request.endHour == request.startHour + 1
    requires request.resourceId != id || DayNumber(request.date) != day || request.startHour != s
    ensures FreeAt(ExecuteCreate(db, requesterId, request, newId, now).db, id, day, s, s + 1)
  {
    CreateAddsOneRow(db, requesterId, request, newId, now);
    CreatedSlot(db, requesterId, request, newId, now);
    hide DayNumber, CreateSucceeds, Operational, ExecuteCreate;
    var after := ExecuteCreate(db, requesterId, request, newId, now).db;
    assert forall b :: after.Blocks(b, id, day) ==> b == newId || db.Blocks(b, id, day);
  }

  lemma DifferentPlaces(j: nat, k: nat, ids: seq<Id>, firstDay: int)
    requires ids != [] && Distinct(ids) && j != k
    ensures var (i, day, start) := PlaceOf(j, |ids|, firstDay);
            var (i', day', start') := PlaceOf(k, |ids|, firstDay);
            i < |ids| && i' < |ids| && (ids[i] != ids[i'] || day != day' || start != start')
  {
    PlaceDecodes(j, |ids|, firstDay);
    PlaceDecodes(k, |ids|, firstDay);
    SlotHours(j, |ids|, firstDay);
    SlotHours(k, |ids|, firstDay);
    hide PlaceOf;
  }

  /** One request of the write phase. */
  lemma SlotIsTaken(db: Database, requesterId: Id, k: nat, ids: seq<Id>, firstDay: int, newId: Id, now: int)
    requires Sound(db, now) && ids != [] && Distinct(ids) && newId !in db.bookings && now < HourMs(firstDay, 7)
    requires WireDay(PlaceOf(k, |ids|, firstDay).1) && SlotFree(db, k, ids, firstDay)
    ensures CreateSucceeds(db, requesterId, RequestAt(k, ids, firstDay), newId, now)
    ensures var after := ExecuteCreate(db, requesterId, RequestAt(k, ids, firstDay), newId, now).db;
            after.bookings.Keys == db.bookings.Keys + {newId}
            && forall j: nat :: j != k && SlotFree(db, j, ids, firstDay) ==> SlotFree(after, j, ids, firstDay)
  {
    var (index, day, start) := PlaceOf(k, |ids|, firstDay);
    var request := RequestAt(k, ids, firstDay);
    SlotHours(k, |ids|, firstDay);
    CivilRoundTrip(day);
    DateCheckExact(CivilOf(day));
    SoundHours(db, now);
    SlotIsFuture(firstDay, day, start, now);
    hide Sound, PlaceOf, FreeAt, DayNumber, CivilOf, PassesDateCheck, WireDay, CreateSucceeds, ExecuteCreate;
    FreeIsBookable(db, requesterId, request, newId, now);
    CreateAddsOneRow(db, requesterId, request, newId, now);
    forall j: nat | j != k && SlotFree(db, j, ids, firstDay)
      ensures SlotFree(ExecuteCreate(db, requesterId, request, newId, now).db, j, ids, firstDay)
    {
      DifferentPlaces(k, j, ids, firstDay);
      var (i', day', start') := PlaceOf(j, |ids|, firstDay);
      OtherSlotsStayFree(db, requesterId, request, newId, now, ids[i'], day', start');
    }
  }

  lemma SlotIsFuture(firstDay: int, day: int, start: nat, now: int)
    requires firstDay <= day && 7 <= start && now < HourMs(firstDay, 7)
    ensures IsFuture(day, start, now)
  {
  }

  /** The write phase: every request names a free slot of its own, and every one is answered with a booking. */
  method BookSlots(db: CampusServices, users: seq<Id>, ids: seq<Id>, firstDay: int, times: seq<int>, newIds: seq<Id>)
      returns (created: nat)
    requires db.Valid() && ids != [] && Distinct(ids) && |users| == |times| == |newIds|
    requires forall i :: 0 <= i < |times| ==> db.clock <= times[i] < HourMs(firstDay, 7)
    requires forall i, j :: 0 <= i < j < |times| ==> times[i] <= times[j]
    requires forall i :: 0 <= i < |newIds| ==> newIds[i] !in db.bookings
    requires Distinct(newIds)
    requires forall i :: 0 <= i < |ids| ==> OpenFrom(db.Tables(), ids[i], firstDay)
    requires forall k: nat :: k <= |times| ==> WireDay(PlaceOf(k, |ids|, firstDay).1)
    modifies db`bookings, db`events, db`clock
    ensures db.Valid() && created == |times|
    ensures db.bookings.Keys == old(db.bookings.Keys) + set i | 0 <= i < |newIds| :: newIds[i]
  {
    hide Sound, WireDay, FreeAt, OpenFrom, PlaceOf, SlotFree;
    created := 0;
    AllSlotsFree(db.Tables(), ids, firstDay);
    for i := 0 to |times|
      invariant db.Valid() && created == i
      invariant i < |times| ==> db.clock <= times[i]
      invariant db.bookings.Keys == old(db.bookings.Keys) + set j | 0 <= j < i :: newIds[j]
      invariant forall k: nat :: i < k ==> SlotFree(db.Tables(), k, ids, firstDay)
    {
      var failure := BookSlot(db, users[i], i + 1, ids, firstDay, times[i], newIds[i]);
      if failure.None? {
        created := created + 1;
      }
    }
  }

  /** One request of the write phase. */
  method BookSlot(db: CampusServices, user: Id, k: nat, ids: seq<Id>, firstDay: int, now: int, newId: Id)
      returns (failure: Option<Failure>)
    requires db.Valid() && db.clock <= now < HourMs(firstDay, 7) && ids != [] && Distinct(ids) && newId !in db.bookings
    requires WireDay(PlaceOf(k, |ids|, firstDay).1) && SlotFree(db.Tables(), k, ids, firstDay)
    modifies db`bookings, db`events, db`clock
    ensures db.Valid() && db.clock == now && failure.None?
    ensures db.bookings.Keys == old(db.bookings.Keys) + {newId}
    ensures forall j: nat :: j != k && SlotFree(old(db.Tables()), j, ids, firstDay) ==>
              SlotFree(db.Tables(), j, ids, firstDay)
  {
    hide Sound, WireDay, PlaceOf, ExecuteCreate, SlotFree, CreateSucceeds, HourMs;
    ghost var before := db.Tables();
    var request := RequestAt(k, ids, firstDay);
    TablesLater(db, now);
    SlotIsTaken(before, user, k, ids, firstDay, newId, now);
    hide RequestAt;
    failure := db.Create(user, request, newId, now);
    CreateOutcome(before, user, request, newId, now, db.Tables(), failure);
  }

  lemma TablesLater(db: CampusServices, now: int)
    requires db.Valid() && db.clock <= now
    ensures Sound(db.Tables(), now)
  {
    SoundLater(db.Tables(), db.clock, now);
  }

  lemma CreateOutcome(before: Database, requesterId: Id, request: BookingRequest, newId: Id, now: int,
                      after: Database, failure: Option<Failure>)
    requires Execute(before, CreateBooking(requesterId, request, newId), now).db == after
    requires Execute(before, CreateBooking(requesterId, request, newId), now).failure == failure
    ensures ExecuteCreate(before, requesterId, request, newId, now).db == after
    ensures ExecuteCreate(before, requesterId, request, newId, now).failure == failure
    ensures CreateSucceeds(before, requesterId, request, newId, now) <==> failure.None?
  {
    hide ExecuteCreate;
  }

  lemma AllSlotsFree(db: Database, ids: seq<Id>, firstDay: int)
    requires ids != [] && forall i :: 0 <= i < |ids| ==> OpenFrom(db, ids[i], firstDay)
    ensures forall k: nat :: SlotFree(db, k, ids, firstDay)
  {
    hide OpenFrom, FreeAt, PlaceOf;
    forall k: nat
      ensures SlotFree(db, k, ids, firstDay)
    {
      SlotHours(k, |ids|, firstDay);
      var (index, day, start) := PlaceOf(k, |ids|, firstDay);
      OpenIsFree(db, ids[index], firstDay, day, start);
    }
  }

  // ----------------------------------------------------- one contended slot

  /** On a free resource whose slot a booking holds, a valid request is refused as an overlap. */
  lemma LoserOverlaps(db: Database, id: Id, requesterId: Id, request: BookingRequest, newId: Id, now: int)
    requires id in db.bookings && db.bookings[id].Blocking() && TimeOrder(db.bookings[id]) && newId !in db.bookings
    requires db.bookings[id].resourceId == request.resourceId && db.bookings[id].date == DayNumber(request.date)
    requires db.bookings[id].startHour == request.startHour && db.bookings[id].endHour == request.endHour
    requires RequestError(request, now).None? && request.resourceId in db.resources
    requires Operational(db.resources[request.resourceId], DayNumber(request.date), request.startHour, request.endHour)
    requires !db.Closed(request.resourceId, DayNumber(request.date))
    ensures ExecuteCreate(db, requesterId, request, newId, now) == Fail(db, Domain(BookingOverlap))
  {
    hide DayNumber, RequestError, Operational;
    var row := NewBooking(db.resources[request.resourceId], requesterId, request, now);
    OverlapOnOneDate(db.bookings[id], row);
    assert Conflict(db.bookings[id], row);
  }

  /** The winner's booking stands in the tables, and nothing else has changed for the request. */
  ghost predicate Won(db: Database, id: Id, request: BookingRequest) {
    id in db.bookings && db.bookings[id].Blocking() && TimeOrder(db.bookings[id])
    && db.bookings[id].resourceId == request.resourceId && db.bookings[id].date == DayNumber(request.date)
    && db.bookings[id].startHour == request.startHour && db.bookings[id].endHour == request.endHour
    && request.resourceId in db.resources
    && Operational(db.resources[request.resourceId], DayNumber(request.date), request.startHour, request.endHour)
    && !db.Closed(request.resourceId, DayNumber(request.date))
  }

  lemma WinnerWins(db: Database, requesterId: Id, request: BookingRequest, newId: Id, now: int)
    requires CreateSucceeds(db, requesterId, request, newId, now)
    ensures Won(ExecuteCreate(db, requesterId, request, newId, now).db, newId, request)
  {
    hide DayNumber, PassesDateCheck, Operational, Excluded;
  }

  /**
   * The storm: of any number of requests for one free slot the first is answered with a booking, all
   * others with an overlap.
   */
  method Storm(db: CampusServices, users: seq<Id>, request: BookingRequest, times: seq<int>, newIds: seq<Id>)
      returns (answers: seq<Option<Failure>>)
    requires db.Valid() && |users| == |times| == |newIds|
    requires forall i :: 0 <= i < |times| ==> db.clock <= times[i] && RequestError(request, times[i]).None?
    requires forall i, j :: 0 <= i < j < |times| ==> times[i] <= times[j]
    requires forall i :: 0 <= i < |newIds| ==> newIds[i] !in db.bookings
    requires Distinct(newIds)
    requires FreeAt(db.Tables(), request.resourceId, DayNumber(request.date), request.startHour, request.endHour)
    modifies db`bookings, db`events, db`clock
    ensures db.Valid() && |answers| == |times|
    ensures forall i :: 0 <= i < |answers| ==> answers[i] == if i == 0 then None else Some(Domain(BookingOverlap))
    ensures db.bookings.Keys == old(db.bookings.Keys) + if |newIds| > 0 then {newIds[0]} else {}
  {
    hide Sound, FreeAt, DayNumber, RequestError, Won;
    answers := [];
    for i := 0 to |times|
      invariant db.Valid() && |answers| == i && db.resources == old(db.resources) && db.closures == old(db.closures)
      invariant i < |times| ==> db.clock <= times[i]
      invariant i == 0 ==> db.Tables() == old(db.Tables())
      invariant i > 0 ==> Won(db.Tables(), newIds[0], request)
      invariant forall k :: 0 <= k < i ==> answers[k] == if k == 0 then None else Some(Domain(BookingOverlap))
      invariant db.bookings.Keys == old(db.bookings.Keys) + if i > 0 then {newIds[0]} else {}
    {
      ghost var before := db.Tables();
      TablesLater(db, times[i]);
      if i == 0 {
        FirstOfStorm(before, users[i], request, newIds[i], times[i]);
      } else {
        LaterOfStorm(before, newIds[0], users[i], request, newIds[i], times[i]);
      }
      hide ExecuteCreate, CreateSucceeds;
      var failure := db.Create(users[i], request, newIds[i], times[i]);
      CreateOutcome(before, users[i], request, newIds[i], times[i], db.Tables(), failure);
      answers := answers + [failure];
    }
  }

  lemma FirstOfStorm(db: Database, requesterId: Id, request: BookingRequest, newId: Id, now: int)
    requires Sound(db, now) && newId !in db.bookings && RequestError(request, now).None?
    requires FreeAt(db, request.resourceId, DayNumber(request.date), request.startHour, request.endHour)
    ensures CreateSucceeds(db, requesterId, request, newId, now)
    ensures var after := ExecuteCreate(db, requesterId, request, newId, now).db;
            Won(after, newId, request) && after.bookings.Keys == db.bookings.Keys + {newId}
            && after.resources == db.resources && after.closures == db.closures
  {
    SoundHours(db, now);
    hide Sound, FreeAt, DayNumber, PassesDateCheck, CreateSucceeds, Won, ExecuteCreate;
    FreeIsBookable(db, requesterId, request, newId, now);
    CreateAddsOneRow(db, requesterId, request, newId, now);
    WinnerWins(db, requesterId, request, newId, now);
  }

  lemma LaterOfStorm(db: Database, winner: Id, requesterId: Id, request: BookingRequest, newId: Id, now: int)
    requires Won(db, winner, request) && newId !in db.bookings && RequestError(request, now).None?
    ensures ExecuteCreate(db, requesterId, request, newId, now) == Fail(db, Domain(BookingOverlap))
  {
    LoserOverlaps(db, winner, requesterId, request, newId, now);
    hide DayNumber, RequestError, Operational, ExecuteCreate;
  }
}
