/**
 * The booking responses the backend builds and the parsers by which the
 * frontend accepts or refuses them. Responses and parsers are two codebases'
 * ideas of what a booking can look like; the lemmas say how far they agree.
 */
module FrontendBookings {
  import opened Bookings
  import opened Calendar
  import opened CampusClock
  import opened Decimal
  import opened Wrappers

  // --------------------------------------------------------------- responses

  /** StudentBookingResponseDto without its resource summary; timestamps are instants. */
  datatype StudentResponse = StudentResponse(
    id: Id,
    date: string,
    startTime: string,
    endTime: string,
    status: Status,
    canCancel: bool,
    canRequestCheckIn: bool,
    hasEnded: bool,
    checkInCode: Option<string>,
    checkInRequestedAt: Option<int>,
    checkedInAt: Option<int>,
    checkedOutAt: Option<int>,
    noShowAt: Option<int>,
    cancelledAt: Option<int>,
    reviewedAt: Option<int>,
    rejectionReason: Option<string>,
    createdAt: int)

  function StudentFromEntity(id: Id, b: Booking, canCancel: bool, canRequestCheckIn: bool,
                             hasEnded: bool): StudentResponse
  {
    StudentResponse(id, DayText(b.date), FormatHour(b.startHour), FormatHour(b.endHour), b.status,
                    canCancel, canRequestCheckIn, hasEnded,
                    b.checkInCode, b.checkInRequestedAt, b.checkedInAt, b.checkedOutAt, b.noShowAt,
                    b.cancelledAt, b.reviewedAt, b.rejectionReason, b.createdAt)
  }

  /** The response for a row whose flags are evaluated at an instant. */
  function StudentView(id: Id, b: Booking, evaluatedAt: int): StudentResponse {
    StudentFromEntity(id, b, CanCancel(b, evaluatedAt), CanRequestCheckIn(b, evaluatedAt), HasEnded(b, evaluatedAt))
  }

  /** StaffBookingResponseDto without its resource summary; people are their ids. */
  datatype StaffResponse = StaffResponse(
    id: Id,
    resourceId: Id,
    date: string,
    startTime: string,
    endTime: string,
    status: Status,
    createdAt: int,
    reviewedAt: Option<int>,
    rejectionReason: Option<string>,
    canReview: bool,
    checkInRequested: bool,
    canConfirmCheckIn: bool,
    canCheckOut: bool,
    canMarkNoShow: bool,
    checkedInAt: Option<int>,
    checkedOutAt: Option<int>,
    noShowAt: Option<int>,
    reviewer: Option<Id>)

  function StaffFromEntity(id: Id, b: Booking, canReview: bool, canConfirmCheckIn: bool, canCheckOut: bool,
                           canMarkNoShow: bool)
    : StaffResponse
  {
    StaffResponse(id, b.resourceId, DayText(b.date), FormatHour(b.startHour), FormatHour(b.endHour), b.status,
                  b.createdAt, b.reviewedAt, b.rejectionReason,
                  canReview, b.checkInRequestedAt.Some?, canConfirmCheckIn, canCheckOut, canMarkNoShow,
                  b.checkedInAt, b.checkedOutAt, b.noShowAt, b.reviewedById)
  }

  function StaffView(id: Id, b: Booking, evaluatedAt: int): StaffResponse {
    StaffFromEntity(id, b, CanReview(b, evaluatedAt), CanConfirmCheckIn(b, evaluatedAt), CanCheckOut(b),
                    CanMarkNoShow(b, evaluatedAt))
  }

  // ----------------------------------------------------------------- parsers

  /** `/^(?:[01]\d|2[0-3]):00$/` */
  predicate IsHourText(s: string) {
    |s| == 5 && s[2..] == ":00" && IsDigit(s[1]) && (s[0] == '0' || s[0] == '1' || (s[0] == '2' && s[1] <= '3'))
  }

  predicate IsCalendarDate(s: string) {
    IsDatePattern(s) && PassesDateCheck(ParseDate(s))
  }

  /** `isAtOrAfter` */
  predicate IsAtOrAfter(left: Option<int>, right: Option<int>) {
    left.Some? && right.Some? ==> left.value >= right.value
  }

  /** `campusBookingEndMs(date, endTime)`, None for NaN, with which every comparison is false. */
  predicate EarlierThanEnd(instant: Option<int>, date: string, endTime: string) {
    var end := CampusDateTimeMs(date, endTime);
    instant.Some? && end.Some? && instant.value < end.value
  }

  /** The date and time checks that both booking parsers make. */
  predicate IntervalAccepted(date: string, startTime: string, endTime: string) {
    IsCalendarDate(date) && IsHourText(startTime) && IsHourText(endTime) && Less(startTime, endTime)
  }

  /** The rule relating `checkInRequestedAt` and `checkInCode` to the status. */
  predicate CodeAccepted(r: StudentResponse) {
    (r.checkInCode.Some? ==> SixDigits(r.checkInCode.value))
    && (if r.checkInRequestedAt.None? then r.checkInCode.None? && r.status != CheckedIn && r.status != Completed
        else if r.status == Confirmed then r.checkInCode.Some?
        else r.status in {CheckedIn, Completed, NoShow} && r.checkInCode.None?)
  }

  /** The rule relating the three visit timestamps to the status; `requested` is whether a code was generated. */
  predicate VisitAccepted(status: Status, requested: bool, checkedInAt: Option<int>, checkedOutAt: Option<int>,
                          noShowAt: Option<int>) {
    match status
    case CheckedIn => checkedInAt.Some? && requested && checkedOutAt.None? && noShowAt.None?
    case Completed => checkedInAt.Some? && requested && checkedOutAt.Some? && noShowAt.None?
    case NoShow => noShowAt.Some? && checkedInAt.None? && checkedOutAt.None?
    case _ => checkedInAt.None? && checkedOutAt.None? && noShowAt.None?
  }

  /** `parseStudentBooking` returns a booking rather than null. */
  predicate StudentAccepted(r: StudentResponse) {
    IntervalAccepted(r.date, r.startTime, r.endTime)
    && (if r.status == Cancelled then !r.canCancel && r.cancelledAt.Some? else r.cancelledAt.None?)
    && (if r.status == Rejected then !r.canCancel && r.reviewedAt.Some? && r.rejectionReason.Some?
        && r.rejectionReason.value != ""
        else r.rejectionReason.None?)
    && CodeAccepted(r)
    && VisitAccepted(r.status, r.checkInRequestedAt.Some?, r.checkedInAt, r.checkedOutAt, r.noShowAt)
    && IsAtOrAfter(r.checkedInAt, r.checkInRequestedAt)
    && IsAtOrAfter(r.checkedOutAt, r.checkedInAt)
    && !EarlierThanEnd(r.noShowAt, r.date, r.endTime)
    && (r.canRequestCheckIn ==> r.status == Confirmed && r.checkInRequestedAt.None?)
    && !(r.hasEnded && (r.canCancel || r.canRequestCheckIn))
  }

  /** `String.length`, which counts UTF-16 code units where a `char` here is a code point. */
  function Utf16Length(s: string): nat {
    if s == "" then 0 else (if s[0] as int >= 0x1_0000 then 2 else 1) + Utf16Length(s[1..])
  }

  /** `parseStaffBooking` returns a booking rather than null. */
  predicate StaffAccepted(r: StaffResponse) {
    IntervalAccepted(r.date, r.startTime, r.endTime)
    && (r.rejectionReason.Some? ==> 3 <= Utf16Length(r.rejectionReason.value) <= 500)
    && (r.reviewedAt.None? <==> r.reviewer.None?)
    && (if r.status == Pending then r.reviewedAt.None? && r.reviewer.None? && r.rejectionReason.None? else !r.canReview)
    && (if r.status == Rejected then r.reviewedAt.Some? && r.reviewer.Some? && r.rejectionReason.Some?
        && r.rejectionReason.value != ""
        else r.rejectionReason.None?)
    && VisitAccepted(r.status, r.checkInRequested, r.checkedInAt, r.checkedOutAt, r.noShowAt)
    && IsAtOrAfter(r.checkedOutAt, r.checkedInAt)
    && !EarlierThanEnd(r.noShowAt, r.date, r.endTime)
    && (r.canConfirmCheckIn ==> r.status == Confirmed && r.checkInRequested)
    && !(r.canConfirmCheckIn && r.canMarkNoShow)
    && (r.canCheckOut <==> r.status == CheckedIn)
    && (r.canMarkNoShow ==> r.status == Confirmed)
  }

  // ----------------------------------------------------------------- lemmas

  lemma HourTextAccepted(hour: nat)
    requires hour <= 23
    ensures IsHourText(FormatHour(hour))
  {
    var s := FormatHour(hour);
    assert s[2..] == ":00";
    assert Padded(hour, 2) == Padded(hour / 10, 1) + [DigitChar(hour % 10)];
    assert Padded(hour / 10, 1) == Padded(hour / 10 / 10, 0) + [DigitChar(hour / 10)];
  }

  lemma DayAccepted(day: int)
    requires WireDay(day)
    ensures IsCalendarDate(DayText(day))
  {
    DateTextRoundTrip(CivilOf(day));
    DateCheckExact(CivilOf(day));
  }

  lemma IntervalOfRowAccepted(b: Booking)
    requires TimeOrder(b) && WireDay(b.date)
    ensures IntervalAccepted(DayText(b.date), FormatHour(b.startHour), FormatHour(b.endHour))
    ensures CampusDateTimeMs(DayText(b.date), FormatHour(b.endHour)) == Some(b.EndMs())
  {
    hide Less, IsHourText, FormatHour, CampusDateTimeMs, DayNumber;
    HourTextAccepted(b.startHour);
    HourTextAccepted(b.endHour);
    HourTextOrder(b.startHour, b.endHour);
    HourTextInstant(b.date, b.endHour);
    DateTextRoundTrip(CivilOf(b.date));
    DateCheckExact(CivilOf(b.date));
  }

  /** Whatever the services store, and whenever the flags are evaluated, the student parser accepts the response. */
  lemma StudentResponsesAccepted(id: Id, b: Booking, now: int, evaluatedAt: int)
    requires SoundRow(b, now)
    ensures StudentAccepted(StudentView(id, b, evaluatedAt))
  {
    hide IntervalAccepted, CampusDateTimeMs, DayText, FormatHour;
    IntervalOfRowAccepted(b);
    assert b.StartMs() < b.EndMs();
    if b.status == Rejected {
      assert Btrim("") == "";
    }
  }

  lemma {:induction false} Utf16AtLeast(s: string)
    ensures Utf16Length(s) >= |s|
  {
    if s != "" {
      Utf16AtLeast(s[1..]);
    }
  }

  lemma {:induction false} BtrimShortens(s: string)
    ensures |Btrim(s)| <= |s|
    decreases |s|
  {
    if s == "" {
    } else if s[0] == ' ' {
      BtrimShortens(s[1..]);
    } else if s[|s| - 1] == ' ' {
      BtrimShortens(s[..|s| - 1]);
    }
  }

  predicate ShortReason(b: Booking) {
    b.rejectionReason.Some? ==> Utf16Length(b.rejectionReason.value) <= 500
  }

  /** The staff parser accepts the response exactly when the rejection reason has at most 500 UTF-16 units. */
  lemma StaffResponsesAccepted(id: Id, b: Booking, now: int, evaluatedAt: int)
    requires SoundRow(b, now)
    ensures StaffAccepted(StaffView(id, b, evaluatedAt)) <==> ShortReason(b)
  {
    hide IntervalAccepted, CampusDateTimeMs, DayText, FormatHour, Utf16Length, Btrim;
    IntervalOfRowAccepted(b);
    if b.rejectionReason.Some? {
      Utf16AtLeast(b.rejectionReason.value);
      BtrimShortens(b.rejectionReason.value);
    }
  }

  function Repeat(c: char, n: nat): (s: string)
    ensures |s| == n && forall i :: 0 <= i < n ==> s[i] == c
  {
    if n == 0 then "" else [c] + Repeat(c, n - 1)
  }

  lemma {:induction false} AstralLength(n: nat)
    ensures Utf16Length(Repeat('\U{1F4C5}', n)) == 2 * n
  {
    if n > 0 {
      AstralLength(n - 1);
      assert Repeat('\U{1F4C5}', n)[1..] == Repeat('\U{1F4C5}', n - 1);
    }
  }

  /** A staff member can reject a request with a reason whose response the staff parser then refuses. */
  lemma LongReasonRefused(id: Id, b: Booking, reviewer: Id, now: int, evaluatedAt: int) returns (reason: Reason)
    requires SoundRow(b, now) && CanReview(b, now)
    ensures var r := Advance(b, Reject(reviewer, reason), now);
            r.Ok? && !StaffAccepted(StaffView(id, r.value, evaluatedAt))
  {
    reason := Repeat('\U{1F4C5}', 300);
    AstralLength(300);
    hide StaffView, StaffAccepted, Repeat, Utf16Length, SatisfiesChecks;
    RejectedRow(b, reviewer, reason, now);
    hide Advance, SoundRow, CanReview;
    StaffResponsesAccepted(id, Advance(b, Reject(reviewer, reason), now).value, now, evaluatedAt);
  }

  lemma RejectedRow(b: Booking, reviewer: Id, reason: Reason, now: int)
    requires SoundRow(b, now) && CanReview(b, now)
    ensures var r := Advance(b, Reject(reviewer, reason), now);
            r.Ok? && r.value.rejectionReason == Some(reason) && SoundRow(r.value, now)
  {
    AdvanceKeepsChecks(b, Reject(reviewer, reason), now);
    hide SatisfiesChecks, WireDay;
  }

  /** The frontend accepts the text of a day only in the years that are stored. */
  lemma AcceptedDateIsWire(day: int)
    ensures IsCalendarDate(DayText(day)) ==> WireDay(day)
  {
    var c := CivilOf(day);
    if FourDigitYear(c) {
      DateTextRoundTrip(c);
      DateCheckExact(c);
    } else {
      assert DayText(day)[0] == '+' || DayText(day)[0] == '-';
      assert IsDatePattern(DayText(day)) ==> IsDigit(DayText(day)[..4][0]);
    }
  }

  /** What the student's response alone vouches for. */
  lemma AcceptedStudentRow(id: Id, b: Booking, evaluatedAt: int)
    requires b.startHour <= 23 && b.endHour <= 23 && StudentAccepted(StudentView(id, b, evaluatedAt))
    ensures TimeOrder(b) && CancellationState(b) && RejectionState(b) && CheckInRequest(b) && NoShowTimeline(b)
    ensures b.status in {CheckedIn, Completed} <==> b.checkedInAt.Some?
    ensures b.status == Completed <==> b.checkedOutAt.Some?
    ensures b.status == NoShow <==> b.noShowAt.Some?
    ensures b.checkedInAt.Some? ==> b.checkInRequestedAt.Some? && b.checkInRequestedAt.value <= b.checkedInAt.value
    ensures b.checkedOutAt.Some? ==> b.checkedInAt.Some? && b.checkedInAt.value <= b.checkedOutAt.value
  {
    AcceptedDateIsWire(b.date);
    hide Less, CampusDateTimeMs, DayText, FormatHour, IsCalendarDate, IsHourText;
    HourTextOrder(b.startHour, b.endHour);
    HourTextInstant(b.date, b.endHour);
  }

  /** What the staff response alone vouches for. */
  lemma AcceptedStaffRow(id: Id, b: Booking, evaluatedAt: int)
    requires b.startHour <= 23 && b.endHour <= 23 && StaffAccepted(StaffView(id, b, evaluatedAt))
    ensures TimeOrder(b) && PendingUnreviewed(b) && ReviewPair(b) && RejectionState(b) && NoShowTimeline(b)
    ensures b.rejectionReason.Some? ==> 3 <= Utf16Length(b.rejectionReason.value) <= 500
    ensures b.status in {CheckedIn, Completed} <==> b.checkedInAt.Some?
    ensures b.status == Completed <==> b.checkedOutAt.Some?
    ensures b.status == NoShow <==> b.noShowAt.Some?
    ensures b.checkedInAt.Some? ==> b.checkInRequestedAt.Some?
    ensures b.checkedOutAt.Some? ==> b.checkedInAt.Some? && b.checkedInAt.value <= b.checkedOutAt.value
  {
    AcceptedDateIsWire(b.date);
    hide Less, CampusDateTimeMs, DayText, FormatHour, IsCalendarDate, IsHourText, Utf16Length;
    HourTextOrder(b.startHour, b.endHour);
    HourTextInstant(b.date, b.endHour);
  }

  /**
   * Conversely the two parsers together re-check the table: a row whose
   * responses both pass meets every constraint that the responses show.
   */
  lemma AcceptedRowsMeetConstraints(id: Id, b: Booking, evaluatedAt: int)
    requires b.startHour <= 23 && b.endHour <= 23
    requires StudentAccepted(StudentView(id, b, evaluatedAt)) && StaffAccepted(StaffView(id, b, evaluatedAt))
    ensures TimeOrder(b) && CancellationState(b) && PendingUnreviewed(b) && ReviewPair(b) && RejectionState(b)
    ensures CheckInRequest(b) && NoShowTimeline(b)
    ensures b.status in {CheckedIn, Completed} <==> b.checkedInAt.Some?
    ensures b.status == Completed <==> b.checkedOutAt.Some?
    ensures b.status == NoShow <==> b.noShowAt.Some?
    ensures b.checkedInAt.Some? ==> b.checkInRequestedAt.Some? && b.checkInRequestedAt.value <= b.checkedInAt.value
    ensures b.checkedOutAt.Some? ==> b.checkedInAt.Some? && b.checkedInAt.value <= b.checkedOutAt.value
  {
    hide StudentAccepted, StaffAccepted;
    AcceptedStudentRow(id, b, evaluatedAt);
    AcceptedStaffRow(id, b, evaluatedAt);
  }
}
