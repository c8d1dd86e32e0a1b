/**
 * What the responses show and the staff queues list, in terms of the stored
 * rows and of what their owners could do with them.
 */
module ViewOutcomes {
  import opened Agreement
  import opened Availability
  import opened Bookings
  import opened Calendar
  import opened CampusClock
  import opened FrontendBookings
  import opened Resources
  import opened StaffQueues
  import opened Timeline
  import opened Wrappers

  // ------------------------------------------------------------ availability

  /** A response shows the resource's own columns, and the first reason against the day. */
  lemma ResponseShows(db: Database, id: Id, day: int, now: int)
    ensures View(db, id, day, now).None? <==> id !in db.resources
    ensures id in db.resources ==>
              var a, r := View(db, id, day, now).value, db.resources[id];
              a.status == r.status && a.operatingDays == r.operatingDays && a.opensAt == r.opensAt
              && a.closesAt == r.closesAt && a.requiresApproval == r.requiresApproval
              && (a.blockedReason == Some(InMaintenance) <==> r.status == Maintenance)
              && (a.blockedReason == Some(NotActive) <==> r.status == Inactive)
              && (forall text :: a.blockedReason == Some(ClosedForDay(text)) <==>
                    r.status == Active && (id, day) in db.closures && db.closures[(id, day)].reason == text)
              && (a.blockedReason == Some(ClosedWeekday) <==>
                    r.status == Active && (id, day) !in db.closures && WeekdayOf(day) !in r.operatingDays)
              && (a.blockedReason.Some? ==> a.slots == [])
  {
    hide WeekdayOf;
  }

  /**
   * A start alone selects its hour while it is on offer; a range inside the hours is always selected, and available
   * while all its hours are on offer; anything else selects nothing.
   */
  lemma SelectionShows(a: Response, start: Option<Hour>, end: Option<Hour>)
    requires Availability.Ascending(a.slots)
    ensures Resolve(a, start, end)
         == match (start, end)
            case (Some(s), None) =>
              if Slot(s, s + 1) in a.slots then Selection(Some(Slot(s, s + 1)), true) else Selection(None, false)
            case (Some(s), Some(e)) =>
              if s < e && a.opensAt <= s && e <= a.closesAt
              then Selection(Some(Slot(s, e)), forall h: nat :: s <= h < e ==> SlotAt(h) in a.slots)
              else Selection(None, false)
            case (None, _) => Selection(None, false)
  {
    hide JoinsUp, Filter, FindStart, Availability.Ascending;
    if start.Some? {
      if end.Some? {
        ResolvesByHours(a, start.value, end.value);
      } else {
        FindStartMember(a.slots, start.value);
      }
    }
  }

  // ----------------------------------------------------------------- bookings

  /** The student's view carries the stored columns, and offers exactly what would succeed at that instant. */
  lemma StudentViewShows(id: Id, b: Booking, now: int, at: int, seed: CodeSeed)
    requires SoundRow(b, now)
    ensures var v := StudentView(id, b, at);
            v.id == id && v.date == DayText(b.date) && v.startTime == FormatHour(b.startHour)
            && v.endTime == FormatHour(b.endHour) && v.status == b.status && v.createdAt == b.createdAt
            && v.checkInCode == b.checkInCode && v.checkInRequestedAt == b.checkInRequestedAt
            && v.checkedInAt == b.checkedInAt && v.checkedOutAt == b.checkedOutAt && v.noShowAt == b.noShowAt
            && v.cancelledAt == b.cancelledAt && v.reviewedAt == b.reviewedAt && v.rejectionReason == b.rejectionReason
            && (v.canCancel <==> Advance(b, Cancel(b.requesterId), at).Ok?)
            && (v.canRequestCheckIn <==> Advance(b, RequestCheckIn(b.requesterId, seed), at).Ok?)
            && (v.hasEnded <==> HourMs(b.date, b.endHour) <= at)
  {
    hide DayText, FormatHour, WireDay, Btrim;
  }

  /** The staff view carries the stored columns, and offers exactly what would succeed at that instant. */
  lemma StaffViewShows(id: Id, b: Booking, now: int, at: int, staff: Id, reason: Reason)
    requires SoundRow(b, now)
    ensures var v := StaffView(id, b, at);
            v.id == id && v.resourceId == b.resourceId && v.date == DayText(b.date)
            && v.startTime == FormatHour(b.startHour) && v.endTime == FormatHour(b.endHour) && v.status == b.status
            && v.createdAt == b.createdAt && v.reviewedAt == b.reviewedAt && v.rejectionReason == b.rejectionReason
            && v.checkedInAt == b.checkedInAt && v.checkedOutAt == b.checkedOutAt && v.noShowAt == b.noShowAt
            && v.reviewer == b.reviewedById && (v.checkInRequested <==> b.checkInRequestedAt.Some?)
            && (v.canReview <==> Advance(b, Approve(staff), at).Ok?)
            && (v.canReview <==> Advance(b, Reject(staff, reason), at).Ok?)
            && (v.canConfirmCheckIn <==> exists code :: Advance(b, ConfirmCheckIn(staff, code), at).Ok?)
            && (v.canCheckOut <==> Advance(b, CheckOut(staff), at).Ok?)
            && (v.canMarkNoShow <==> Advance(b, MarkNoShow(staff), at).Ok?)
  {
    hide DayText, FormatHour, WireDay, HourMs, Btrim;
    if CanConfirmCheckIn(b, at) {
      assert Advance(b, ConfirmCheckIn(staff, b.checkInCode.value), at).Ok?;
    }
  }

  /** Of a sound row, `parseStudentBooking` refuses exactly the flags that contradict its status or each other. */
  lemma StudentFlagRules(id: Id, b: Booking, now: int, canCancel: bool, canRequestCheckIn: bool, hasEnded: bool)
    requires SoundRow(b, now)
    ensures StudentAccepted(StudentFromEntity(id, b, canCancel, canRequestCheckIn, hasEnded))
       <==> (b.status in {Cancelled, Rejected} ==> !canCancel)
            && (canRequestCheckIn ==> b.status == Confirmed && b.checkInRequestedAt.None?)
            && !(hasEnded && (canCancel || canRequestCheckIn))
  {
    StudentResponsesAccepted(id, b, now, now);
    hide IntervalAccepted, CampusDateTimeMs, DayText, FormatHour, SoundRow, CodeAccepted, VisitAccepted, EarlierThanEnd;
  }

  /**
   * Of a sound row, `parseStaffBooking` refuses a long reason and the flags that contradict its
   * status or each other.
   */
  lemma StaffFlagRules(id: Id, b: Booking, now: int, canReview: bool, canConfirmCheckIn: bool, canCheckOut: bool,
                       canMarkNoShow: bool)
    requires SoundRow(b, now)
    ensures StaffAccepted(StaffFromEntity(id, b, canReview, canConfirmCheckIn, canCheckOut, canMarkNoShow))
       <==> (b.rejectionReason.Some? ==> Utf16Length(b.rejectionReason.value) <= 500)
            && (canReview ==> b.status == Pending)
            && (canConfirmCheckIn ==> b.status == Confirmed && b.checkInRequestedAt.Some?)
            && !(canConfirmCheckIn && canMarkNoShow)
            && (canCheckOut <==> b.status == CheckedIn)
            && (canMarkNoShow ==> b.status == Confirmed)
  {
    IntervalOfRowAccepted(b);
    StaffResponsesAccepted(id, b, now, now);
    hide IntervalAccepted, CampusDateTimeMs, DayText, FormatHour, Utf16Length, Btrim;
    if b.rejectionReason.Some? {
      Utf16AtLeast(b.rejectionReason.value);
      BtrimShortens(b.rejectionReason.value);
    }
  }

  // ------------------------------------------------------------------- queues

  /** At some instant a member of staff can still check the visitor in or out, or record that nobody came. */
  ghost predicate VisitOpen(b: Booking, staff: Id) {
    exists t :: Advance(b, CheckOut(staff), t).Ok? || Advance(b, MarkNoShow(staff), t).Ok?
  }

  /**
   * The operations queue lists a booking exactly when its campus date has begun and staff still has
   * to end its visit.
   */
  lemma OperationsQueueIsOpen(table: map<Id, Booking>, now: int, rows: seq<Stored>, id: Id, staff: Id)
    requires OperationsQueue(table, now, rows) && id in table
    ensures (exists x :: x in rows && x.id == id) <==> HourMs(table[id].date, 0) <= now && VisitOpen(table[id], staff)
  {
    var b := table[id];
    assert b.date <= CampusDay(now) <==> HourMs(b.date, 0) <= now;
    assert VisitOpen(b, staff) <==> b.status in {Confirmed, CheckedIn} by {
      if b.status == Confirmed {
        assert Advance(b, MarkNoShow(staff), b.EndMs()).Ok?;
      } else if b.status == CheckedIn {
        assert Advance(b, CheckOut(staff), 0).Ok?;
      }
    }
    hide CampusDay, HourMs, Advance, VisitOpen;
    assert id in OperationIds(table, now) <==> b.date <= CampusDay(now) && b.status in {Confirmed, CheckedIn};
    if id in OperationIds(table, now) {
      var x :| x in rows && x.id == id;
    }
  }

  /** A resource's day lists each of its bookings on the date, whatever became of it. */
  lemma ScheduleIsComplete(table: map<Id, Booking>, resourceId: Id, day: int, rows: seq<Stored>, id: Id)
    requires ResourceSchedule(table, resourceId, day, rows) && id in table
    ensures (exists x :: x in rows && x.id == id) <==> table[id].resourceId == resourceId && table[id].date == day
  {
    assert id in ScheduleIds(table, resourceId, day) <==> table[id].resourceId == resourceId && table[id].date == day;
    if id in ScheduleIds(table, resourceId, day) {
      var x :| x in rows && x.id == id;
    }
  }
}
