/** Which lists of stored bookings the list parsers of the frontend accept. */
module ListOutcomes {
  import opened Arithmetic
  import opened Bookings
  import opened Calendar
  import opened CampusClock
  import opened Decimal
  import opened FrontendBookings
  import opened StaffQueues
  import opened Timeline
  import opened WireText

  // ------------------------------------------------------------------- pages

  lemma CeilBetween(total: nat, pageSize: nat, totalPages: int)
    requires pageSize >= 1
    ensures totalPages == Ceil(total, pageSize) <==> (totalPages - 1) * pageSize < total <= totalPages * pageSize
  {
    var c: int := Ceil(total, pageSize);
    DivisionBounds(total + pageSize - 1, pageSize);
    OnePageLess(c, pageSize);
    hide Ceil;
    Monotone(totalPages, c - 1, pageSize);
    Monotone(c, totalPages - 1, pageSize);
  }

  lemma OnePageLess(pages: int, pageSize: nat)
    ensures (pages - 1) * pageSize == pages * pageSize - pageSize
  {
  }

  /**
   * A page passes when its size is allowed, the total fills the pages said but not one less, and
   * the page is full with the total reaching its end, ends with the total, or is empty beyond it.
   */
  lemma PageChecks(total: int, page: int, pageSize: int, totalPages: int, itemCount: nat)
    ensures PageAccepted(total, page, pageSize, totalPages, itemCount)
       <==> total >= 0 && page >= 1 && 1 <= pageSize <= 50
            && (totalPages - 1) * pageSize < total <= totalPages * pageSize
            && ((itemCount == pageSize && page * pageSize <= total)
                || (itemCount < pageSize && (page - 1) * pageSize + itemCount == total)
                || (itemCount == 0 && total <= (page - 1) * pageSize))
  {
    if total >= 0 && page >= 1 && 1 <= pageSize <= 50 {
      CeilBetween(total, pageSize, totalPages);
      assert page * pageSize == (page - 1) * pageSize + pageSize;
      hide Ceil;
    }
  }

  // ------------------------------------------------------------------ queues

  /** By start, then by creation. */
  predicate HoursInOrder(a: Booking, b: Booking) {
    a.startHour < b.startHour || (a.startHour == b.startHour && a.createdAt <= b.createdAt)
  }

  /** By date, then by start and creation. */
  predicate VisitsInOrder(a: Booking, b: Booking) {
    a.date < b.date || (a.date == b.date && HoursInOrder(a, b))
  }

  lemma KeysInOrder(x: Stored, y: Stored, now: int)
    requires SoundRow(x.row, now) && SoundRow(y.row, now) && IsoYear(x.row.createdAt) && IsoYear(y.row.createdAt)
    ensures var a, b := StaffView(x.id, x.row, now), StaffView(y.id, y.row, now);
            a.createdAt == x.row.createdAt && b.createdAt == y.row.createdAt
            && (!Less(IsoInstant(b.createdAt), IsoInstant(a.createdAt)) <==> x.row.createdAt <= y.row.createdAt)
            && (!Less(ScheduleKeyOf(b), ScheduleKeyOf(a)) <==> HoursInOrder(x.row, y.row))
            && (!Less(OperationsKeyOf(b), OperationsKeyOf(a)) <==> VisitsInOrder(x.row, y.row))
  {
    SoundRowHours(x.row, now);
    SoundRowHours(y.row, now);
    StaffViewFields(x, now);
    StaffViewFields(y, now);
    hide SoundRow, IsoYear, Less, IsoInstant, StaffView, WireDay;
    IsoInstantOrder(y.row.createdAt, x.row.createdAt);
    ScheduleKeyOrder(y.row.startHour, y.row.createdAt, x.row.startHour, x.row.createdAt);
    OperationsKeyOrder(y.row, x.row);
  }

  /** Each request after the one before it, by creation. */
  ghost predicate ByCreation(rows: seq<Stored>) {
    forall i, j :: 0 <= i < j < |rows| && j == i + 1 ==> rows[i].row.createdAt <= rows[j].row.createdAt
  }

  /** `parseStaffBookingQueue` takes different pending requests that have not ended, oldest first, and nothing else. */
  lemma PendingListsAccepted(rows: seq<Stored>, now: int, total: int, page: int, pageSize: int, totalPages: int)
    requires WireRows(rows, now)
    ensures PendingQueueAccepted(StaffViews(rows, now), total, page, pageSize, totalPages)
       <==> PageAccepted(total, page, pageSize, totalPages, |rows|) && DistinctIds(rows) && ByCreation(rows)
            && forall x :: x in rows ==> x.row.status == Pending && now < HourMs(x.row.date, x.row.endHour)
  {
    hide SoundRow, IsoYear, StaffView, StaffAccepted, PageAccepted, Less, IsoInstant, DistinctIds, ShortReason, HourMs;
    StaffViewsReadable(rows, now);
    hide UniqueIds;
    forall i | 0 <= i < |rows|
      ensures StaffViews(rows, now)[i].createdAt == rows[i].row.createdAt && IsoYear(rows[i].row.createdAt)
      ensures StaffViews(rows, now)[i].status == rows[i].row.status
      ensures StaffViews(rows, now)[i].canReview
         <==> rows[i].row.status == Pending && now < HourMs(rows[i].row.date, rows[i].row.endHour)
      ensures rows[i].row.status == Pending ==> ShortReason(rows[i].row)
    {
      assert rows[i] in rows;
      StaffViewFields(rows[i], now);
      if rows[i].row.status == Pending {
        PendingReasonShort(rows[i].row, now);
      }
    }
    forall i, j | 0 <= i < j < |rows| && j == i + 1
      ensures !Less(IsoInstant(rows[j].row.createdAt), IsoInstant(rows[i].row.createdAt))
         <==> rows[i].row.createdAt <= rows[j].row.createdAt
    {
      IsoInstantOrder(rows[j].row.createdAt, rows[i].row.createdAt);
    }
  }

  /** Each visit after the one before it, by date, start and creation. */
  ghost predicate ByVisit(rows: seq<Stored>) {
    forall i, j :: 0 <= i < j < |rows| && j == i + 1 ==> VisitsInOrder(rows[i].row, rows[j].row)
  }

  /**
   * `parseStaffOperationsQueue` takes different confirmed and checked-in bookings up to the campus
   * date, in the order of their visits, and nothing else.
   */
  lemma OperationsListsAccepted(rows: seq<Stored>, now: int, total: int, page: int, pageSize: int, totalPages: int,
                                today: int)
    requires WireRows(rows, now) && WireDay(today)
    ensures OperationsQueueAccepted(StaffViews(rows, now), total, page, pageSize, totalPages, DayText(today))
       <==> PageAccepted(total, page, pageSize, totalPages, |rows|) && DistinctIds(rows) && ByVisit(rows)
            && forall x :: x in rows ==> x.row.date <= today && x.row.status in {Confirmed, CheckedIn}
  {
    hide SoundRow, StaffView, StaffAccepted, PageAccepted, Less, OperationsKeyOf, ShortReason, IsoYear, DayText,
      IsCalendarDate, DistinctIds, WireDay, IsoInstant, ScheduleKeyOf, VisitsInOrder;
    StaffViewsReadable(rows, now);
    hide UniqueIds;
    DayAccepted(today);
    forall i | 0 <= i < |rows|
      ensures StaffViews(rows, now)[i].createdAt == rows[i].row.createdAt && IsoYear(rows[i].row.createdAt)
      ensures !Less(DayText(today), StaffViews(rows, now)[i].date) <==> rows[i].row.date <= today
      ensures StaffViews(rows, now)[i].status == rows[i].row.status
      ensures rows[i].row.status in {Confirmed, CheckedIn} ==> ShortReason(rows[i].row)
    {
      assert rows[i] in rows;
      OperationsItem(rows[i], now, today);
    }
    forall i, j | 0 <= i < j < |rows| && j == i + 1
      ensures !Less(OperationsKeyOf(StaffViews(rows, now)[j]), OperationsKeyOf(StaffViews(rows, now)[i]))
         <==> VisitsInOrder(rows[i].row, rows[j].row)
    {
      assert rows[i] in rows && rows[j] in rows;
      KeysInOrder(rows[i], rows[j], now);
    }
  }

  lemma OperationsItem(x: Stored, now: int, today: int)
    requires SoundRow(x.row, now) && WireDay(today)
    ensures var v := StaffView(x.id, x.row, now);
            v.createdAt == x.row.createdAt && v.status == x.row.status
            && (!Less(DayText(today), v.date) <==> x.row.date <= today)
    ensures x.row.status in {Confirmed, CheckedIn} ==> ShortReason(x.row)
  {
    StaffViewFields(x, now);
    SoundRowHours(x.row, now);
    if x.row.status in {Confirmed, CheckedIn} {
      PendingReasonShort(x.row, now);
    }
    hide SoundRow, Less, DayText, StaffView, ShortReason;
    DayTextOrder(today, x.row.date);
  }

  /** Each booking after the one before it, by start and creation. */
  ghost predicate ByHour(rows: seq<Stored>) {
    forall i, j :: 0 <= i < j < |rows| && j == i + 1 ==> HoursInOrder(rows[i].row, rows[j].row)
  }

  /**
   * `parseStaffResourceSchedule` takes different bookings of the resource and the date with short
   * reasons, by start and creation, and nothing else.
   */
  lemma ScheduleListsAccepted(rows: seq<Stored>, now: int, resourceId: Id, day: int)
    requires WireRows(rows, now) && WireDay(day)
    ensures ScheduleAccepted(StaffViews(rows, now), resourceId, DayText(day))
       <==> DistinctIds(rows) && ByHour(rows)
            && forall x :: x in rows ==> x.row.resourceId == resourceId && x.row.date == day && ShortReason(x.row)
  {
    hide SoundRow, StaffView, StaffAccepted, Less, OperationsKeyOf, ShortReason, IsoYear, DayText, DistinctIds, WireDay,
      IsoInstant, ScheduleKeyOf, HoursInOrder;
    StaffViewsReadable(rows, now);
    hide UniqueIds;
    forall i | 0 <= i < |rows|
      ensures StaffViews(rows, now)[i].createdAt == rows[i].row.createdAt && IsoYear(rows[i].row.createdAt)
      ensures StaffViews(rows, now)[i].resourceId == rows[i].row.resourceId
      ensures StaffViews(rows, now)[i].date == DayText(day) <==> rows[i].row.date == day
    {
      assert rows[i] in rows;
      ScheduleItem(rows[i], now, day);
    }
    forall i, j | 0 <= i < j < |rows| && j == i + 1
      ensures !Less(ScheduleKeyOf(StaffViews(rows, now)[j]), ScheduleKeyOf(StaffViews(rows, now)[i]))
         <==> HoursInOrder(rows[i].row, rows[j].row)
    {
      assert rows[i] in rows && rows[j] in rows;
      KeysInOrder(rows[i], rows[j], now);
    }
  }

  lemma ScheduleItem(x: Stored, now: int, day: int)
    requires SoundRow(x.row, now) && WireDay(day)
    ensures var v := StaffView(x.id, x.row, now);
            v.createdAt == x.row.createdAt && v.resourceId == x.row.resourceId
            && (v.date == DayText(day) <==> x.row.date == day)
  {
    StaffViewFields(x, now);
    SoundRowHours(x.row, now);
    DayTextOrder(x.row.date, day);
  }

  // ---------------------------------------------------------------- timeline

  /** The booking holds its slot and has not ended. */
  predicate Ahead(b: Booking, now: int) {
    b.status in {Pending, Confirmed, CheckedIn} && now < HourMs(b.date, b.endHour)
  }

  predicate NotLater(a: Booking, b: Booking) {
    a.date < b.date || (a.date == b.date && a.startHour <= b.startHour)
  }

  /**
   * `parseBookingTimeline` takes different bookings, those ahead by start and the others by start
   * backwards, and nothing else.
   */
  lemma TimelinesAccepted(up: seq<Stored>, history: seq<Stored>, now: int)
    requires RowsReadable(up, now) && RowsReadable(history, now)
    ensures TimelineAccepted(Views(up, now), Views(history, now))
       <==> DistinctIds(up + history)
            && (forall x :: x in up ==> Ahead(x.row, now)) && (forall x :: x in history ==> !Ahead(x.row, now))
            && (forall i, j :: 0 <= i < j < |up| && j == i + 1 ==> NotLater(up[i].row, up[j].row))
            && (forall i, j :: 0 <= i < j < |history| && j == i + 1 ==> NotLater(history[j].row, history[i].row))
  {
    hide StudentAccepted, SoundRow, Less, StudentView, ResponseStart, NotLater, Ahead, Open;
    ViewsAccepted(up, now);
    ViewsAccepted(history, now);
    IdsTogether(up, history, now);
    hide DistinctIds;
    forall i | 0 <= i < |up|
      ensures Open(Views(up, now)[i].status) && !Views(up, now)[i].hasEnded <==> Ahead(up[i].row, now)
    {
      ViewAhead(up[i], now);
    }
    forall i | 0 <= i < |history|
      ensures (Open(Views(history, now)[i].status) ==> Views(history, now)[i].hasEnded) <==> !Ahead(history[i].row, now)
    {
      ViewAhead(history[i], now);
    }
    forall i, j | 0 <= i < j < |up| && j == i + 1
      ensures !Less(ResponseStart(Views(up, now)[j]), ResponseStart(Views(up, now)[i]))
         <==> NotLater(up[i].row, up[j].row)
    {
      assert up[i] in up && up[j] in up;
      StartsInOrder(up[i], up[j], now);
    }
    forall i, j | 0 <= i < j < |history| && j == i + 1
      ensures !Less(ResponseStart(Views(history, now)[i]), ResponseStart(Views(history, now)[j]))
         <==> NotLater(history[j].row, history[i].row)
    {
      assert history[i] in history && history[j] in history;
      StartsInOrder(history[j], history[i], now);
    }
  }

  lemma ViewAhead(x: Stored, now: int)
    ensures var v := StudentView(x.id, x.row, now);
            Open(v.status) && !v.hasEnded <==> Ahead(x.row, now)
  {
  }

  lemma StartsInOrder(x: Stored, y: Stored, now: int)
    requires SoundRow(x.row, now) && SoundRow(y.row, now)
    ensures !Less(ResponseStart(StudentView(y.id, y.row, now)), ResponseStart(StudentView(x.id, x.row, now)))
       <==> NotLater(x.row, y.row)
  {
    SoundRowHours(x.row, now);
    SoundRowHours(y.row, now);
    ResponseStartIs(x, now);
    ResponseStartIs(y, now);
    hide SoundRow, Less, StudentView, ResponseStart, StartText;
    StartTextOrder(y.row, x.row);
  }

  lemma IdsTogether(up: seq<Stored>, history: seq<Stored>, now: int)
    ensures DistinctIds(up + history)
       <==> forall i, j :: 0 <= i < j < |up| + |history| ==>
              (Views(up, now) + Views(history, now))[i].id != (Views(up, now) + Views(history, now))[j].id
  {
    ViewsIds(up, now);
    ViewsIds(history, now);
    hide Views;
    var both := Views(up, now) + Views(history, now);
    forall i | 0 <= i < |both|
      ensures both[i].id == (up + history)[i].id
    {
    }
  }
}
