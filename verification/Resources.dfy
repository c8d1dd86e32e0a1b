/**
 * Resource rows, closures, and the database tables the booking and resource
 * services share.
 */
module Resources {
  import opened Bookings
  import opened Calendar
  import opened CampusClock
  import opened Wrappers

  datatype ResourceStatus = Active | Maintenance | Inactive

  /** `/^(?:[01]\d|2[0-3]):00$/` */
  type Hour = h: nat | h <= 23

  /** What the DTO accepts as operating days: at least one weekday, Sunday being 0. */
  type Weekdays = days: set<int> | days != {} && days <= {0, 1, 2, 3, 4, 5, 6} witness {1}

  datatype Resource = Resource(
    code: string,
    status: ResourceStatus,
    operatingDays: set<int>,
    opensAt: nat,
    closesAt: nat,
    requiresApproval: bool,
    createdAt: int)

  /** The CHECK constraints of the resources table on days and hours. */
  predicate ResourceChecks(r: Resource) {
    r.operatingDays != {} && r.operatingDays <= {0, 1, 2, 3, 4, 5, 6} && r.opensAt < r.closesAt <= 23
  }

  datatype Closure = Closure(id: Id, reason: string)

  /** Closures are keyed by their unique index (resource_id, date). */
  datatype Database = Database(
    resources: map<Id, Resource>,
    closures: map<(Id, int), Closure>,
    bookings: map<Id, Booking>)
  {
    predicate Closed(resourceId: Id, day: int) {
      (resourceId, day) in closures
    }

    predicate Blocks(id: Id, resourceId: Id, day: int) {
      id in bookings && bookings[id].resourceId == resourceId && bookings[id].date == day && bookings[id].Blocking()
    }

    /** The hours that blocking bookings take of a resource on a day. */
    function BusyOn(resourceId: Id, day: int): set<Interval> {
      set id | id in bookings && Blocks(id, resourceId, day) :: IntervalOf(bookings[id])
    }
  }

  /** IDX_resources_code */
  ghost predicate CodesUnique(db: Database) {
    forall i, j :: i in db.resources && j in db.resources && db.resources[i].code == db.resources[j].code ==> i == j
  }

  /** The hours of a booking, from `startHour` up to `endHour`. */
  datatype Interval = Interval(startHour: nat, endHour: nat)

  function IntervalOf(b: Booking): Interval {
    Interval(b.startHour, b.endHour)
  }

  /** The day and hours lie inside the operating schedule. */
  predicate InSchedule(r: Resource, day: int, startHour: int, endHour: int) {
    WeekdayOf(day) in r.operatingDays && r.opensAt <= startHour && endHour <= r.closesAt
  }

  /** `requireOperationalAvailability` */
  predicate Operational(r: Resource, day: int, startHour: int, endHour: int) {
    r.status == Active && InSchedule(r, day, startHour, endHour)
  }

  // ----------------------------------------------------------------- changes

  /** UpdateResourceDto, reduced to the properties that availability depends on. */
  datatype ResourceChange = ResourceChange(
    operatingDays: Option<Weekdays>,
    opensAt: Option<Hour>,
    closesAt: Option<Hour>,
    requiresApproval: Option<bool>)

  function Or<T>(o: Option<T>, default: T): T {
    if o.Some? then o.value else default
  }

  /** The row after `detailChanges` is written. */
  function Changed(r: Resource, change: ResourceChange): Resource {
    r.(operatingDays := if change.operatingDays.Some? then change.operatingDays.value else r.operatingDays,
       opensAt := if change.opensAt.Some? then change.opensAt.value else r.opensAt,
       closesAt := if change.closesAt.Some? then change.closesAt.value else r.closesAt,
       requiresApproval := Or(change.requiresApproval, r.requiresApproval))
  }

  /** `changedSchedule` finds a difference. */
  predicate ScheduleChanges(r: Resource, change: ResourceChange) {
    var after := Changed(r, change);
    after.operatingDays != r.operatingDays || after.opensAt != r.opensAt || after.closesAt != r.closesAt
  }

  // --------------------------------------------- conditions of admin changes

  /** A reviewable booking that has not ended and lies outside the schedule of `after`. */
  predicate OutsideSchedule(b: Booking, after: Resource, now: int) {
    b.Reviewable() && EndsAfterNow(b.date, b.endHour, now) && !InSchedule(after, b.date, b.startHour, b.endHour)
  }

  /** A booking that a status other than ACTIVE would strand. */
  predicate HoldsStatus(b: Booking, now: int) {
    (b.Reviewable() && EndsAfterNow(b.date, b.endHour, now)) || b.status == CheckedIn
  }

  /** A booking that a closure on `day` would strand. */
  predicate HoldsDay(b: Booking, day: int, now: int) {
    b.date == day && b.Blocking() && EndsAfterNow(b.date, b.endHour, now)
  }

  function BookingsOf(db: Database, resourceId: Id): set<Id> {
    set id | id in db.bookings && db.bookings[id].resourceId == resourceId
  }

  function ScheduleConflicts(db: Database, resourceId: Id, after: Resource, now: int): set<Id> {
    set id | id in BookingsOf(db, resourceId) && OutsideSchedule(db.bookings[id], after, now)
  }

  function StatusConflicts(db: Database, resourceId: Id, now: int): set<Id> {
    set id | id in BookingsOf(db, resourceId) && HoldsStatus(db.bookings[id], now)
  }

  function ClosureConflicts(db: Database, resourceId: Id, day: int, now: int): set<Id> {
    set id | id in BookingsOf(db, resourceId) && HoldsDay(db.bookings[id], day, now)
  }

  // ------------------------------------------------------------------ import

  /** A catalog entry that `validateCatalog` accepted, reduced to what availability depends on. */
  type ImportRow = r: Resource | ResourceChecks(r) witness Resource("", Active, {1}, 8, 18, false, 0)

  /** A booking of the resource holds a slot, ended or not. */
  ghost predicate HasActiveBooking(db: Database, resourceId: Id) {
    exists id :: id in db.bookings && db.bookings[id].resourceId == resourceId && db.bookings[id].Blocking()
  }

  ghost predicate HasActiveBookingOn(db: Database, resourceId: Id, day: int) {
    exists id :: db.Blocks(id, resourceId, day)
  }

  /** Some booking names the resource, whatever became of it. */
  predicate HasBooking(db: Database, resourceId: Id) {
    exists id :: id in db.bookings && db.bookings[id].resourceId == resourceId
  }

  predicate HasCode(db: Database, id: Id, code: string) {
    id in db.resources && db.resources[id].code == code
  }

  /** IDX_resources_code would be violated by another resource with the code. */
  predicate CodeTaken(db: Database, code: string) {
    exists id :: id in db.resources && HasCode(db, id, code)
  }

  /** The resource an upsert of the code finds. */
  ghost function Holder(db: Database, code: string): Option<Id> {
    if id: Id :| HasCode(db, id, code) then Some(id) else None
  }

  predicate HasClosureId(db: Database, closureId: Id) {
    exists k :: k in db.closures && db.closures[k].id == closureId
  }
}
