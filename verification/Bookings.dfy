/**
 * Booking rows, the constraints PostgreSQL enforces on them, and the lifecycle
 * commands of the bookings service as functions of one locked row.
 */
module Bookings {
  import opened Calendar
  import opened CampusClock
  import opened Decimal
  import opened Wrappers

  /** A uuid, as its 128-bit number. */
  type Id = nat

  datatype Status = Pending | Confirmed | CheckedIn | Completed | NoShow | Rejected | Cancelled

  datatype Booking = Booking(
    resourceId: Id,
    requesterId: Id,
    date: int,
    startHour: nat,
    endHour: nat,
    status: Status,
    createdAt: int,
    cancelledAt: Option<int>,
    reviewedAt: Option<int>,
    reviewedById: Option<Id>,
    rejectionReason: Option<string>,
    checkInCode: Option<string>,
    checkInRequestedAt: Option<int>,
    checkedInAt: Option<int>,
    checkedInById: Option<Id>,
    checkedOutAt: Option<int>,
    checkedOutById: Option<Id>,
    noShowAt: Option<int>,
    noShowById: Option<Id>)
  {
    function StartMs(): int {
      HourMs(date, startHour)
    }

    function EndMs(): int {
      HourMs(date, endHour)
    }

    /** BLOCKING_STATUSES: the booking holds its slot. */
    predicate Blocking() {
      status == Pending || status == Confirmed || status == CheckedIn
    }

    /** REVIEWABLE_STATUSES: the booking holds its slot before check-in. */
    predicate Reviewable() {
      status == Pending || status == Confirmed
    }
  }

  // ------------------------------------------------------------- constraints

  /** PostgreSQL `btrim`, which strips blanks only. */
  function Btrim(s: string): string {
    if s == "" then s
    else if s[0] == ' ' then Btrim(s[1..])
    else if s[|s| - 1] == ' ' then Btrim(s[..|s| - 1])
    else s
  }

  /** What RejectBookingDto lets through: trimmed text of 3 to 500 characters. */
  predicate IsReason(s: string) {
    3 <= |s| <= 500 && !IsWhiteSpace(s[0]) && !IsWhiteSpace(s[|s| - 1])
  }

  type Reason = s: string | IsReason(s) witness "abc"

  predicate SixDigits(s: string) {
    |s| == 6 && AllDigits(s)
  }

  predicate TimeOrder(b: Booking) {
    b.startHour < b.endHour <= 23
  }

  predicate CancellationState(b: Booking) {
    b.status == Cancelled <==> b.cancelledAt.Some?
  }

  predicate PendingUnreviewed(b: Booking) {
    b.status == Pending ==> b.reviewedAt.None?
  }

  predicate ReviewPair(b: Booking) {
    b.reviewedAt.Some? <==> b.reviewedById.Some?
  }

  predicate RejectionState(b: Booking) {
    if b.status == Rejected then b.rejectionReason.Some? && b.reviewedAt.Some? else b.rejectionReason.None?
  }

  predicate RejectionReasonContent(b: Booking) {
    b.status == Rejected ==> b.rejectionReason.Some? && 3 <= |Btrim(b.rejectionReason.value)| <= 500
  }

  predicate CheckInRequest(b: Booking) {
    if b.checkInRequestedAt.None? then b.checkInCode.None?
    else if b.status == Confirmed then b.checkInCode.Some? && SixDigits(b.checkInCode.value)
    else b.status in {CheckedIn, Completed, NoShow} && b.checkInCode.None?
  }

  /** The column comparisons of the constraints: from fifteen minutes before the start, and before the end. */
  predicate InVisitPeriod(b: Booking, instant: int) {
    instant >= HourMs(b.date, b.startHour) - 15 * MINUTE_MS && instant < HourMs(b.date, b.endHour)
  }

  predicate CheckInTimeline(b: Booking) {
    (b.checkInRequestedAt.Some? ==> InVisitPeriod(b, b.checkInRequestedAt.value))
    && (b.checkedInAt.Some? ==>
          b.checkInRequestedAt.Some? && b.checkInRequestedAt.value <= b.checkedInAt.value
          && InVisitPeriod(b, b.checkedInAt.value))
    && (b.checkedOutAt.Some? ==> b.checkedInAt.Some? && b.checkedInAt.value <= b.checkedOutAt.value)
  }

  predicate NoShowTimeline(b: Booking) {
    b.noShowAt.Some? ==> b.EndMs() <= b.noShowAt.value
  }

  predicate CheckedInState(b: Booking) {
    if b.status in {CheckedIn, Completed} then
      b.checkInRequestedAt.Some? && b.checkedInAt.Some? && b.checkedInById.Some?
    else b.checkedInAt.None? && b.checkedInById.None?
  }

  predicate CheckoutState(b: Booking) {
    if b.status == Completed then b.checkedOutAt.Some? && b.checkedOutById.Some?
    else b.checkedOutAt.None? && b.checkedOutById.None?
  }

  predicate NoShowState(b: Booking) {
    if b.status == NoShow then b.noShowAt.Some? && b.noShowById.Some?
    else b.noShowAt.None? && b.noShowById.None?
  }

  /** Every CHECK constraint of the bookings table. */
  predicate SatisfiesChecks(b: Booking) {
    TimeOrder(b) && CancellationState(b) && PendingUnreviewed(b) && ReviewPair(b)
    && RejectionState(b) && RejectionReasonContent(b)
    && CheckInRequest(b) && CheckInTimeline(b) && NoShowTimeline(b)
    && CheckedInState(b) && CheckoutState(b) && NoShowState(b)
  }

  /** The `booking_period` column, as a half-open range of instants. */
  datatype Period = Period(lower: int, upper: int)

  function PeriodOf(b: Booking): Period {
    var s, e := b.StartMs(), b.EndMs();
    if s <= e then Period(s, e) else Period(e, s)
  }

  /** The range operator `&&`, false of an empty range. */
  predicate PeriodsOverlap(p: Period, q: Period) {
    p.lower < p.upper && q.lower < q.upper && p.lower < q.upper && q.lower < p.upper
  }

  /** EXCL_bookings_resource_period_blocking forbids two rows that conflict. */
  predicate Conflict(a: Booking, b: Booking) {
    a.Blocking() && b.Blocking() && a.resourceId == b.resourceId && PeriodsOverlap(PeriodOf(a), PeriodOf(b))
  }

  /** Period overlap is overlap of whole hours on one date. */
  lemma OverlapOnOneDate(a: Booking, b: Booking)
    requires TimeOrder(a) && TimeOrder(b)
    ensures PeriodsOverlap(PeriodOf(a), PeriodOf(b))
       <==> a.date == b.date && a.startHour < b.endHour && b.startHour < a.endHour
  {
  }

  // ------------------------------------------------------------------ guards

  /** `isWithinCheckInWindow` */
  predicate InCheckInWindow(b: Booking, now: int) {
    var opensAt := b.StartMs() - 15 * 60 * 1000;
    opensAt <= now < b.EndMs()
  }

  predicate CanCancel(b: Booking, now: int) {
    (b.status == Pending || b.status == Confirmed)
    && b.checkInRequestedAt.None?
    && IsFuture(b.date, b.startHour, now)
  }

  predicate CanRequestCheckIn(b: Booking, now: int) {
    b.status == Confirmed && b.checkInRequestedAt.None? && InCheckInWindow(b, now)
  }

  predicate HasEnded(b: Booking, now: int) {
    now >= b.EndMs()
  }

  predicate CanReview(b: Booking, now: int) {
    b.status == Pending && now < b.EndMs()
  }

  predicate CanConfirmCheckIn(b: Booking, now: int) {
    b.status == Confirmed && b.checkInRequestedAt.Some? && InCheckInWindow(b, now)
  }

  predicate CanCheckOut(b: Booking) {
    b.status == CheckedIn
  }

  predicate CanMarkNoShow(b: Booking, now: int) {
    b.status == Confirmed && now >= b.EndMs()
  }

  // ---------------------------------------------------------------- commands

  datatype Error =
    | InvalidBookingDate
    | InvalidBookingRange
    | BookingInPast
    | ResourceNotFound
    | ResourceUnavailable
    | BookingOverlap
    | BookingNotFound
    | BookingNotCancellable
    | BookingNotPending
    | BookingReviewWindowEnded
    | CheckInNotAvailable
    | CheckInAlreadyRequested
    | InvalidCheckInCode
    | BookingNotCheckedIn
    | NoShowNotAvailable

  /** `randomInt(0, 1_000_000)` */
  type CodeSeed = n: nat | n < 1_000_000

  datatype Lifecycle =
    | Approve(reviewerId: Id)
    | Reject(reviewerId: Id, reason: Reason)
    | RequestCheckIn(requesterId: Id, seed: CodeSeed)
    | ConfirmCheckIn(staffId: Id, code: string)
    | CheckOut(staffId: Id)
    | MarkNoShow(staffId: Id)
    | Cancel(requesterId: Id)

  /** The updated row, or the error thrown; `b` is the locked row and `now` the clock read after locking. */
  function Advance(b: Booking, command: Lifecycle, now: int): Result<Booking, Error> {
    match command
    case Approve(reviewerId) =>
      if b.status != Pending then Err(BookingNotPending)
      else if !CanReview(b, now) then Err(BookingReviewWindowEnded)
      else Ok(b.(status := Confirmed, reviewedAt := Some(now), reviewedById := Some(reviewerId),
                 rejectionReason := None))
    case Reject(reviewerId, reason) =>
      if b.status != Pending then Err(BookingNotPending)
      else if !CanReview(b, now) then Err(BookingReviewWindowEnded)
      else Ok(b.(status := Rejected, reviewedAt := Some(now), reviewedById := Some(reviewerId),
                 rejectionReason := Some(reason)))
    case RequestCheckIn(requesterId, seed) =>
      if b.requesterId != requesterId then Err(BookingNotFound)
      else if b.checkInRequestedAt.Some? || b.checkInCode.Some? then Err(CheckInAlreadyRequested)
      else if !CanRequestCheckIn(b, now) then Err(CheckInNotAvailable)
      else Ok(b.(checkInCode := Some(Padded(seed, 6)), checkInRequestedAt := Some(now)))
    case ConfirmCheckIn(staffId, code) =>
      if b.status != Confirmed || b.checkInCode.None? || !InCheckInWindow(b, now) then Err(CheckInNotAvailable)
      else if b.checkInCode.value != code then Err(InvalidCheckInCode)
      else Ok(b.(status := CheckedIn, checkInCode := None, checkedInAt := Some(now), checkedInById := Some(staffId)))
    case CheckOut(staffId) =>
      if b.status != CheckedIn then Err(BookingNotCheckedIn)
      else Ok(b.(status := Completed, checkedOutAt := Some(now), checkedOutById := Some(staffId)))
    case MarkNoShow(staffId) =>
      if b.status != Confirmed || now < b.EndMs() then Err(NoShowNotAvailable)
      else Ok(b.(status := NoShow, checkInCode := None, noShowAt := Some(now), noShowById := Some(staffId)))
    case Cancel(requesterId) =>
      if b.requesterId != requesterId then Err(BookingNotFound)
      else if !CanCancel(b, now) then Err(BookingNotCancellable)
      else Ok(b.(status := Cancelled, cancelledAt := Some(now)))
  }

  // --------------------------------------------------- what every step keeps

  predicate NotAfter(instant: Option<int>, now: int) {
    instant.Some? ==> instant.value <= now
  }

  /** The row meets its constraints, its date prints as a date text, and its timestamps lie in the past. */
  predicate SoundRow(b: Booking, now: int) {
    SatisfiesChecks(b) && WireDay(b.date)
    && NotAfter(b.cancelledAt, now) && NotAfter(b.reviewedAt, now) && NotAfter(b.checkInRequestedAt, now)
    && NotAfter(b.checkedInAt, now) && NotAfter(b.checkedOutAt, now) && NotAfter(b.noShowAt, now)
  }

  /** `after` is `before` moved on: the same slot, holding no more than before. */
  predicate Releases(before: Booking, after: Booking) {
    after.resourceId == before.resourceId && after.requesterId == before.requesterId
    && after.date == before.date && after.startHour == before.startHour && after.endHour == before.endHour
    && after.createdAt == before.createdAt
    && (after.Blocking() ==> before.Blocking())
    && (after.Reviewable() ==> before.Reviewable())
  }

  /** How many more successful commands a booking can take. */
  function Remaining(b: Booking): nat {
    match b.status
    case Pending => 4
    case Confirmed => if b.checkInRequestedAt.None? then 3 else 2
    case CheckedIn => 1
    case _ => 0
  }

  lemma BtrimOfReason(s: string)
    requires IsReason(s)
    ensures Btrim(s) == s
  {
  }

  lemma ReviewKeepsChecks(b: Booking, command: Lifecycle, now: int)
    requires SoundRow(b, now) && (command.Approve? || command.Reject?)
    ensures var r := Advance(b, command, now); r.Ok? ==> SoundRow(r.value, now)
  {
    if command.Reject? {
      BtrimOfReason(command.reason);
    }
    hide Btrim, IsReason, WireDay, Padded, HourMs;
  }

  lemma RequestKeepsChecks(b: Booking, command: Lifecycle, now: int)
    requires SoundRow(b, now) && command.RequestCheckIn?
    ensures var r := Advance(b, command, now); r.Ok? ==> SoundRow(r.value, now)
  {
    hide Btrim, WireDay, Padded, HourMs;
  }

  lemma ConfirmKeepsChecks(b: Booking, command: Lifecycle, now: int)
    requires SoundRow(b, now) && command.ConfirmCheckIn?
    ensures var r := Advance(b, command, now); r.Ok? ==> SoundRow(r.value, now)
  {
    hide Btrim, WireDay, HourMs, SixDigits;
  }

  lemma EndKeepsChecks(b: Booking, command: Lifecycle, now: int)
    requires SoundRow(b, now) && (command.CheckOut? || command.MarkNoShow? || command.Cancel?)
    ensures var r := Advance(b, command, now); r.Ok? ==> SoundRow(r.value, now)
  {
    hide Btrim, WireDay, HourMs, SixDigits;
  }

  /** No command fails a CHECK constraint when the clock has not gone back. */
  lemma AdvanceKeepsChecks(b: Booking, command: Lifecycle, now: int)
    requires SoundRow(b, now)
    ensures var r := Advance(b, command, now); r.Ok? ==> SoundRow(r.value, now)
  {
    hide Advance, SoundRow;
    match command
    case Approve(_) => ReviewKeepsChecks(b, command, now);
    case Reject(_, _) => ReviewKeepsChecks(b, command, now);
    case RequestCheckIn(_, _) => RequestKeepsChecks(b, command, now);
    case ConfirmCheckIn(_, _) => ConfirmKeepsChecks(b, command, now);
    case _ => EndKeepsChecks(b, command, now);
  }

  /** A command keeps the slot, never takes a released slot back, and uses up one remaining step. */
  lemma AdvanceReleases(b: Booking, command: Lifecycle, now: int)
    requires SatisfiesChecks(b)
    ensures var r := Advance(b, command, now);
            r.Ok? ==> Releases(b, r.value) && Remaining(r.value) < Remaining(b)
  {
  }

  /** Approving, checking in and checking out take the four steps there are, and record who did what when. */
  lemma FullVisit(b: Booking, reviewer: Id, seed: CodeSeed, desk: Id, door: Id, t1: int, t2: int, t3: int, t4: int)
    requires SoundRow(b, t1) && b.status == Pending
    requires t1 < b.EndMs() && InCheckInWindow(b, t2) && InCheckInWindow(b, t3)
    requires t1 <= t2 <= t3 <= t4
    ensures var approved := Advance(b, Approve(reviewer), t1);
            approved.Ok? &&
            var requested := Advance(approved.value, RequestCheckIn(b.requesterId, seed), t2);
            requested.Ok? && requested.value.checkInCode.Some? &&
            var entered := Advance(requested.value, ConfirmCheckIn(desk, requested.value.checkInCode.value), t3);
            entered.Ok? &&
            var left := Advance(entered.value, CheckOut(door), t4);
            left == Ok(b.(status := Completed,
                          reviewedAt := Some(t1), reviewedById := Some(reviewer),
                          checkInRequestedAt := Some(t2),
                          checkedInAt := Some(t3), checkedInById := Some(desk),
                          checkedOutAt := Some(t4), checkedOutById := Some(door)))
  {
  }

  /** On a sound row each advertised action is offered exactly when its command would succeed. */
  lemma FlagsAreExact(b: Booking, now: int, staff: Id, reason: Reason, seed: CodeSeed, code: string)
    requires SoundRow(b, now)
    ensures CanCancel(b, now) <==> Advance(b, Cancel(b.requesterId), now).Ok?
    ensures CanRequestCheckIn(b, now) <==> Advance(b, RequestCheckIn(b.requesterId, seed), now).Ok?
    ensures CanReview(b, now) <==> Advance(b, Approve(staff), now).Ok?
    ensures CanReview(b, now) <==> Advance(b, Reject(staff, reason), now).Ok?
    ensures CanConfirmCheckIn(b, now) && b.checkInCode == Some(code)
            <==> Advance(b, ConfirmCheckIn(staff, code), now).Ok?
    ensures CanConfirmCheckIn(b, now) ==> b.checkInCode.Some?
    ensures CanCheckOut(b) <==> Advance(b, CheckOut(staff), now).Ok?
    ensures CanMarkNoShow(b, now) <==> Advance(b, MarkNoShow(staff), now).Ok?
  {
  }
}
