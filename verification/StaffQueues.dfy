/** The paged queues of the staff pages: the rows the queries select, the pages, and the parsers. */
module StaffQueues {
  import opened Bookings
  import opened Calendar
  import opened CampusClock
  import opened Decimal
  import opened FrontendBookings
  import opened Timeline
  import opened WireText

  // ------------------------------------------------------------------- pages

  /** `skip: (page - 1) * pageSize, take: pageSize` */
  function Page<T>(rows: seq<T>, page: nat, pageSize: nat): seq<T>
    requires page >= 1
  {
    var skip := (page - 1) * pageSize;
    if skip >= |rows| then [] else if skip + pageSize <= |rows| then rows[skip..skip + pageSize] else rows[skip..]
  }

  /** `Math.ceil(total / pageSize)` */
  function Ceil(total: nat, pageSize: nat): nat
    requires pageSize >= 1
  {
    (total + pageSize - 1) / pageSize
  }

  /** `totalPagesFor` */
  function TotalPagesFor(total: nat, pageSize: nat): nat
    requires pageSize >= 1
  {
    if total == 0 then 0 else Ceil(total, pageSize)
  }

  /** `parseStaffQueuePage` returns page information rather than null. */
  predicate PageAccepted(total: int, page: int, pageSize: int, totalPages: int, itemCount: nat) {
    total >= 0 && page >= 1 && 1 <= pageSize <= 50 && totalPages == Ceil(total, pageSize)
    && var offset := (page - 1) * pageSize;
       itemCount == if offset >= total then 0 else if pageSize <= total - offset then pageSize else total - offset
  }

  /** Queues of these lengths have equally many rows on the page: both end before it, both fill it, or they agree. */
  predicate SameOnPage(a: nat, b: nat, page: nat, pageSize: nat)
    requires page >= 1
  {
    var offset := (page - 1) * pageSize;
    a == b || (a <= offset && b <= offset) || (offset + pageSize <= a && offset + pageSize <= b)
  }

  /**
   * Rows and total come from two statements. A page passes the count check,
   * pages past the end included, exactly when the queue that the total counts
   * has as many rows on it.
   */
  lemma EveryPageAccepted<T>(rows: seq<T>, total: nat, page: nat, pageSize: nat)
    requires page >= 1 && 1 <= pageSize <= 50
    ensures PageAccepted(total, page, pageSize, TotalPagesFor(total, pageSize), |Page(rows, page, pageSize)|)
       <==> SameOnPage(|rows|, total, page, pageSize)
  {
    TotalPagesIsCeil(total, pageSize);
    OffsetNotNegative(page, pageSize);
    hide Ceil, TotalPagesFor;
  }

  /** One row more or less by the time of the count, and the page at the end of the queue is refused. */
  lemma ChangedTotalRefused<T>(rows: seq<T>, page: nat, pageSize: nat)
    requires page >= 1 && 1 <= pageSize <= 50 && Page(rows, page, pageSize) != []
    ensures var n, shown := |rows|, |Page(rows, page, pageSize)|;
            (n <= page * pageSize ==> !PageAccepted(n - 1, page, pageSize, TotalPagesFor(n - 1, pageSize), shown))
            && (n < page * pageSize ==> !PageAccepted(n + 1, page, pageSize, TotalPagesFor(n + 1, pageSize), shown))
  {
    assert page * pageSize == (page - 1) * pageSize + pageSize;
    OffsetNotNegative(page, pageSize);
    EveryPageAccepted(rows, |rows| - 1, page, pageSize);
    EveryPageAccepted(rows, |rows| + 1, page, pageSize);
    hide PageAccepted, TotalPagesFor;
  }

  lemma OffsetNotNegative(page: nat, pageSize: nat)
    requires page >= 1
    ensures (page - 1) * pageSize >= 0
  {
  }

  lemma TotalPagesIsCeil(total: nat, pageSize: nat)
    requires pageSize >= 1
    ensures TotalPagesFor(total, pageSize) == Ceil(total, pageSize)
  {
  }

  /** The first `n` pages, one after the other. */
  function Pages<T>(rows: seq<T>, pageSize: nat, n: nat): seq<T> {
    if n == 0 then [] else Pages(rows, pageSize, n - 1) + Page(rows, n, pageSize)
  }

  lemma {:induction false} PagesArePrefix<T>(rows: seq<T>, pageSize: nat, n: nat)
    ensures Pages(rows, pageSize, n) == if n * pageSize <= |rows| then rows[..n * pageSize] else rows
  {
    if n > 0 {
      PagesArePrefix(rows, pageSize, n - 1);
      assert n * pageSize == (n - 1) * pageSize + pageSize;
    }
  }

  lemma CeilCovers(total: nat, pageSize: nat)
    requires pageSize >= 1
    ensures Ceil(total, pageSize) * pageSize >= total
  {
  }

  /** Reading all the pages in turn reads the whole queue once, in order. */
  lemma PagesConcatenate<T>(rows: seq<T>, pageSize: nat)
    requires pageSize >= 1
    ensures Pages(rows, pageSize, TotalPagesFor(|rows|, pageSize)) == rows
  {
    var n := TotalPagesFor(|rows|, pageSize);
    PagesArePrefix(rows, pageSize, n);
    CeilCovers(|rows|, pageSize);
    if n * pageSize <= |rows| {
      assert rows[..n * pageSize] == rows;
    }
  }

  lemma PageIsSlice<T>(rows: seq<T>, page: nat, pageSize: nat) returns (skip: nat)
    requires page >= 1
    ensures Page(rows, page, pageSize) == [] || skip + |Page(rows, page, pageSize)| <= |rows|
    ensures forall i :: 0 <= i < |Page(rows, page, pageSize)| ==> Page(rows, page, pageSize)[i] == rows[skip + i]
  {
    OffsetNotNegative(page, pageSize);
    skip := (page - 1) * pageSize;
  }

  // ----------------------------------------------------------------- queries

  /** The rows are exactly those of the table whose ids are selected, each once. */
  ghost predicate Selects(table: map<Id, Booking>, ids: set<Id>, rows: seq<Stored>) {
    DistinctIds(rows)
    && (forall x :: x in rows ==> x.id in ids && x.id in table && table[x.id] == x.row)
    && (forall id :: id in ids ==> exists x :: x in rows && x.id == id)
  }

  /** `ORDER BY created_at, id` */
  predicate OldestFirst(rows: seq<Stored>) {
    forall i, j :: 0 <= i < j < |rows| ==>
      rows[i].row.createdAt < rows[j].row.createdAt
        || (rows[i].row.createdAt == rows[j].row.createdAt && rows[i].id < rows[j].id)
  }

  /** The rows the where clause of `findPendingForStaff` selects. */
  function PendingIds(table: map<Id, Booking>, now: int): set<Id> {
    set id | id in table && table[id].status == Pending && EndsAfterNow(table[id].date, table[id].endHour, now)
  }

  ghost predicate PendingQueue(table: map<Id, Booking>, now: int, rows: seq<Stored>) {
    Selects(table, PendingIds(table, now), rows) && OldestFirst(rows)
  }

  /** `ORDER BY start_time, created_at` within one date. */
  predicate ByStart(rows: seq<Stored>) {
    forall i, j :: 0 <= i < j < |rows| ==>
      rows[i].row.startHour < rows[j].row.startHour
      || (rows[i].row.startHour == rows[j].row.startHour && rows[i].row.createdAt <= rows[j].row.createdAt)
  }

  /** `ORDER BY date, start_time, created_at` */
  predicate ByDateAndStart(rows: seq<Stored>) {
    forall i, j :: 0 <= i < j < |rows| ==> OperationsOrdered(rows[i].row, rows[j].row)
  }

  /** The rows the where clause of `findOperationsForStaff` selects. */
  function OperationIds(table: map<Id, Booking>, now: int): set<Id> {
    set id | id in table && table[id].date <= CampusDay(now) && table[id].status in {Confirmed, CheckedIn}
  }

  ghost predicate OperationsQueue(table: map<Id, Booking>, now: int, rows: seq<Stored>) {
    Selects(table, OperationIds(table, now), rows) && ByDateAndStart(rows)
  }

  function ScheduleIds(table: map<Id, Booking>, resourceId: Id, day: int): set<Id> {
    set id | id in table && table[id].resourceId == resourceId && table[id].date == day
  }

  ghost predicate ResourceSchedule(table: map<Id, Booking>, resourceId: Id, day: int, rows: seq<Stored>) {
    Selects(table, ScheduleIds(table, resourceId, day), rows) && ByStart(rows)
  }

  /** The queue lists a request exactly when approving it now would succeed. */
  lemma PendingQueueIsReviewable(table: map<Id, Booking>, now: int, rows: seq<Stored>, id: Id, reviewer: Id)
    requires PendingQueue(table, now, rows) && id in table && SoundRow(table[id], now)
    ensures (exists x :: x in rows && x.id == id) <==> Advance(table[id], Approve(reviewer), now).Ok?
  {
    EndsAfterNowIsExact(table[id].date, table[id].endHour, now);
    assert id in PendingIds(table, now) <==> CanReview(table[id], now);
    if id in PendingIds(table, now) {
      var x :| x in rows && x.id == id;
    }
  }

  // ----------------------------------------------------------------- parsers

  function StaffViews(rows: seq<Stored>, evaluatedAt: int): seq<StaffResponse> {
    seq(|rows|, i requires 0 <= i < |rows| => StaffView(rows[i].id, rows[i].row, evaluatedAt))
  }

  predicate UniqueIds(items: seq<StaffResponse>) {
    forall i, j :: 0 <= i < j < |items| ==> items[i].id != items[j].id
  }

  predicate AllReadable(items: seq<StaffResponse>) {
    forall i :: 0 <= i < |items| ==> StaffAccepted(items[i]) && IsoYear(items[i].createdAt)
  }

  /** `parseStaffBookingQueue` returns a queue rather than null. */
  ghost predicate PendingQueueAccepted(items: seq<StaffResponse>, total: int, page: int, pageSize: int,
                                       totalPages: int) {
    PageAccepted(total, page, pageSize, totalPages, |items|) && AllReadable(items) && UniqueIds(items)
    && (forall i :: 0 <= i < |items| ==> items[i].status == Pending && items[i].canReview)
    && (forall i, j :: 0 <= i < j < |items| && j == i + 1 ==>
          !Less(IsoInstant(items[j].createdAt), IsoInstant(items[i].createdAt)))
  }

  /** `parseStaffOperationsQueue` returns a queue rather than null. */
  ghost predicate OperationsQueueAccepted(items: seq<StaffResponse>, total: int, page: int, pageSize: int,
                                          totalPages: int, campusDate: string) {
    IsCalendarDate(campusDate)
    && PageAccepted(total, page, pageSize, totalPages, |items|) && AllReadable(items) && UniqueIds(items)
    && (forall i :: 0 <= i < |items| ==> !Less(campusDate, items[i].date) && items[i].status in {Confirmed, CheckedIn})
    && (forall i, j :: 0 <= i < j < |items| && j == i + 1 ==>
          !Less(OperationsKeyOf(items[j]), OperationsKeyOf(items[i])))
  }

  /** `parseStaffResourceSchedule` returns a schedule rather than null. */
  ghost predicate ScheduleAccepted(items: seq<StaffResponse>, resourceId: Id, date: string) {
    AllReadable(items) && UniqueIds(items)
    && (forall i :: 0 <= i < |items| ==> items[i].resourceId == resourceId && items[i].date == date)
    && (forall i, j :: 0 <= i < j < |items| && j == i + 1 ==> !Less(ScheduleKeyOf(items[j]), ScheduleKeyOf(items[i])))
  }

  /** `${startTime}:${createdAt}` of a parsed booking. */
  function ScheduleKeyOf(r: StaffResponse): string
    requires IsoYear(r.createdAt)
  {
    r.startTime + (":" + IsoInstant(r.createdAt))
  }

  /** `${date}:${startTime}:${createdAt}` of a parsed booking. */
  function OperationsKeyOf(r: StaffResponse): string
    requires IsoYear(r.createdAt)
  {
    r.date + (":" + ScheduleKeyOf(r))
  }

  // ---------------------------------------------------------- what they accept

  ghost predicate TableReadable(table: map<Id, Booking>, now: int) {
    forall id :: id in table ==> SoundRow(table[id], now) && IsoYear(table[id].createdAt)
  }

  ghost predicate WireRows(rows: seq<Stored>, now: int) {
    forall x :: x in rows ==> SoundRow(x.row, now) && IsoYear(x.row.createdAt)
  }

  ghost predicate StaffRows(rows: seq<Stored>, now: int) {
    DistinctIds(rows) && WireRows(rows, now)
  }

  lemma SelectedRows(table: map<Id, Booking>, ids: set<Id>, rows: seq<Stored>, now: int)
    requires TableReadable(table, now) && Selects(table, ids, rows)
    ensures StaffRows(rows, now)
  {
  }

  lemma PageKeepsRows(rows: seq<Stored>, page: nat, pageSize: nat, now: int)
    requires page >= 1 && StaffRows(rows, now)
    ensures StaffRows(Page(rows, page, pageSize), now)
    ensures forall x :: x in Page(rows, page, pageSize) ==> x in rows
    ensures OldestFirst(rows) ==> OldestFirst(Page(rows, page, pageSize))
    ensures ByDateAndStart(rows) ==> ByDateAndStart(Page(rows, page, pageSize))
  {
    hide SoundRow, IsoYear, Page, StartsBefore;
    var skip := PageIsSlice(rows, page, pageSize);
  }

  /** The common checks pass exactly when no reason among the rows is too long. */
  lemma StaffViewsReadable(rows: seq<Stored>, now: int)
    requires WireRows(rows, now)
    ensures UniqueIds(StaffViews(rows, now)) <==> DistinctIds(rows)
    ensures AllReadable(StaffViews(rows, now)) <==> forall x :: x in rows ==> ShortReason(x.row)
  {
    hide StaffAccepted, StaffView, SoundRow, ShortReason, WireDay, IsoYear;
    forall i | 0 <= i < |rows|
      ensures StaffViews(rows, now)[i].id == rows[i].id && StaffViews(rows, now)[i].createdAt == rows[i].row.createdAt
      ensures StaffAccepted(StaffViews(rows, now)[i]) <==> ShortReason(rows[i].row)
    {
      assert rows[i] in rows;
      StaffResponsesAccepted(rows[i].id, rows[i].row, now, now);
      StaffViewFields(rows[i], now);
    }
  }

  lemma StaffViewFields(x: Stored, now: int)
    ensures var r := StaffView(x.id, x.row, now);
            r.id == x.id && r.resourceId == x.row.resourceId && r.status == x.row.status
              && r.createdAt == x.row.createdAt
            && r.date == DayText(x.row.date) && r.startTime == FormatHour(x.row.startHour)
            && r.canReview == CanReview(x.row, now)
  {
  }

  lemma ViewsCreated(rows: seq<Stored>, now: int)
    ensures forall i :: 0 <= i < |rows| ==> StaffViews(rows, now)[i].createdAt == rows[i].row.createdAt
  {
  }

  lemma PendingReasonShort(b: Booking, now: int)
    requires SoundRow(b, now) && b.status != Rejected
    ensures ShortReason(b)
  {
  }

  lemma OldestFirstAccepted(rows: seq<Stored>, now: int)
    requires StaffRows(rows, now) && OldestFirst(rows)
    ensures forall i, j :: 0 <= i < j < |rows| && j == i + 1 ==>
              IsoYear(rows[i].row.createdAt) && IsoYear(rows[j].row.createdAt)
              && !Less(IsoInstant(rows[j].row.createdAt), IsoInstant(rows[i].row.createdAt))
  {
    hide SoundRow, WireDay, IsoYear, Less, IsoInstant;
    forall i, j | 0 <= i < j < |rows| && j == i + 1
      ensures IsoYear(rows[i].row.createdAt) && IsoYear(rows[j].row.createdAt)
      ensures !Less(IsoInstant(rows[j].row.createdAt), IsoInstant(rows[i].row.createdAt))
    {
      assert rows[i] in rows && rows[j] in rows;
      IsoInstantOrder(rows[j].row.createdAt, rows[i].row.createdAt);
    }
  }

  /** The frontend accepts a page of the pending queue exactly when the later total agrees with it. */
  lemma PendingPagesAccepted(table: map<Id, Booking>, now: int, rows: seq<Stored>, total: nat, page: nat, pageSize: nat)
    requires TableReadable(table, now) && PendingQueue(table, now, rows)
    requires page >= 1 && 1 <= pageSize <= 50
    ensures PendingQueueAccepted(StaffViews(Page(rows, page, pageSize), now), total, page, pageSize,
                                 TotalPagesFor(total, pageSize))
       <==> SameOnPage(|rows|, total, page, pageSize)
  {
    hide SoundRow, IsoYear, StaffView, StaffAccepted, Page, PageAccepted, TotalPagesFor, Less, IsoInstant,
      ShortReason, EndsAfterNow, CanReview, SameOnPage;
    SelectedRows(table, PendingIds(table, now), rows, now);
    EveryPageAccepted(rows, total, page, pageSize);
    PageKeepsRows(rows, page, pageSize, now);
    var items := Page(rows, page, pageSize);
    forall x | x in items
      ensures ShortReason(x.row) && x.row.status == Pending && CanReview(x.row, now)
    {
      PendingRow(table, now, x);
    }
    StaffViewsReadable(items, now);
    OldestFirstAccepted(items, now);
    forall i | 0 <= i < |items|
      ensures StaffViews(items, now)[i].createdAt == items[i].row.createdAt
              && StaffViews(items, now)[i].status == Pending
      ensures StaffViews(items, now)[i].canReview
    {
      assert items[i] in items;
      StaffViewFields(items[i], now);
    }
  }

  lemma PendingRow(table: map<Id, Booking>, now: int, x: Stored)
    requires TableReadable(table, now) && x.id in PendingIds(table, now) && table[x.id] == x.row
    ensures ShortReason(x.row) && x.row.status == Pending && CanReview(x.row, now)
  {
  }

  predicate OperationsOrdered(a: Booking, b: Booking) {
    StartsBefore(a, b) || (a.date == b.date && a.startHour == b.startHour && a.createdAt <= b.createdAt)
  }

  lemma OperationsKeysOrdered(x: Stored, y: Stored, now: int)
    requires SoundRow(x.row, now) && SoundRow(y.row, now) && IsoYear(x.row.createdAt) && IsoYear(y.row.createdAt)
    requires OperationsOrdered(x.row, y.row)
    ensures StaffView(x.id, x.row, now).createdAt == x.row.createdAt
            && StaffView(y.id, y.row, now).createdAt == y.row.createdAt
    ensures !Less(OperationsKeyOf(StaffView(y.id, y.row, now)), OperationsKeyOf(StaffView(x.id, x.row, now)))
  {
    SoundRowHours(x.row, now);
    SoundRowHours(y.row, now);
    StaffViewFields(x, now);
    StaffViewFields(y, now);
    hide SoundRow, IsoYear, Less, IsoInstant, StaffView, StartsBefore, WireDay;
    OperationsKeyOrder(y.row, x.row);
    StartsBeforeOneWay(x.row, y.row);
  }

  lemma OperationsOrderAccepted(rows: seq<Stored>, now: int)
    requires StaffRows(rows, now) && ByDateAndStart(rows)
    ensures forall i, j :: 0 <= i < j < |rows| && j == i + 1 ==>
              IsoYear(rows[i].row.createdAt) && IsoYear(rows[j].row.createdAt)
              && !Less(OperationsKeyOf(StaffViews(rows, now)[j]), OperationsKeyOf(StaffViews(rows, now)[i]))
  {
    hide SoundRow, IsoYear, Less, StaffView, OperationsOrdered, OperationsKeyOf;
    ViewsCreated(rows, now);
    forall i, j | 0 <= i < j < |rows| && j == i + 1
      ensures IsoYear(rows[i].row.createdAt) && IsoYear(rows[j].row.createdAt)
      ensures !Less(OperationsKeyOf(StaffViews(rows, now)[j]), OperationsKeyOf(StaffViews(rows, now)[i]))
    {
      assert rows[i] in rows && rows[j] in rows;
      OperationsKeysOrdered(rows[i], rows[j], now);
    }
  }

  lemma StartsBeforeOneWay(a: Booking, b: Booking)
    ensures StartsBefore(a, b) ==> !StartsBefore(b, a) && (a.date != b.date || a.startHour != b.startHour)
    ensures StartsBefore(b, a) ==> a.date != b.date || a.startHour != b.startHour
  {
  }

  /** The frontend accepts a page of the operations queue exactly when the later total agrees with it. */
  lemma OperationsPagesAccepted(table: map<Id, Booking>, now: int, rows: seq<Stored>, total: nat, page: nat,
                                pageSize: nat)
    requires TableReadable(table, now) && OperationsQueue(table, now, rows) && WireDay(CampusDay(now))
    requires page >= 1 && 1 <= pageSize <= 50
    ensures OperationsQueueAccepted(StaffViews(Page(rows, page, pageSize), now), total, page, pageSize,
                                    TotalPagesFor(total, pageSize), CampusDateOf(now))
       <==> SameOnPage(|rows|, total, page, pageSize)
  {
    hide SoundRow, StaffView, StaffAccepted, Page, PageAccepted, TotalPagesFor, Less, OperationsKeyOf, ShortReason,
      IsoYear, DayText, IsCalendarDate, CampusDay, OperationsOrdered, CampusDateOf, WireDay, SameOnPage;
    SelectedRows(table, OperationIds(table, now), rows, now);
    EveryPageAccepted(rows, total, page, pageSize);
    PageKeepsRows(rows, page, pageSize, now);
    var items := Page(rows, page, pageSize);
    forall x | x in items
      ensures ShortReason(x.row) && x.row.status in {Confirmed, CheckedIn}
              && !Less(CampusDateOf(now), DayText(x.row.date))
    {
      OperationsRow(table, now, x);
    }
    StaffViewsReadable(items, now);
    OperationsOrderAccepted(items, now);
    CampusDateIsDay(now);
    DayAccepted(CampusDay(now));
    forall i | 0 <= i < |items|
      ensures StaffViews(items, now)[i].date == DayText(items[i].row.date)
              && StaffViews(items, now)[i].status == items[i].row.status
    {
      StaffViewFields(items[i], now);
    }
  }

  lemma OperationsRow(table: map<Id, Booking>, now: int, x: Stored)
    requires TableReadable(table, now) && WireDay(CampusDay(now)) && x.id in OperationIds(table, now)
             && table[x.id] == x.row
    ensures ShortReason(x.row) && x.row.status in {Confirmed, CheckedIn}
            && !Less(CampusDateOf(now), DayText(x.row.date))
  {
    PendingReasonShort(x.row, now);
    SoundRowHours(x.row, now);
    DayTextOrder(CampusDay(now), x.row.date);
    hide DayText, Less, CampusDay;
  }

  lemma CampusDateIsDay(now: int)
    ensures CampusDateOf(now) == DayText(CampusDay(now))
  {
  }

  lemma ScheduleOrderAccepted(rows: seq<Stored>, now: int)
    requires StaffRows(rows, now) && ByStart(rows)
    ensures forall i, j :: 0 <= i < j < |rows| && j == i + 1 ==>
              IsoYear(rows[i].row.createdAt) && IsoYear(rows[j].row.createdAt)
              && !Less(ScheduleKeyOf(StaffViews(rows, now)[j]), ScheduleKeyOf(StaffViews(rows, now)[i]))
  {
    hide SoundRow, IsoYear, Less, IsoInstant, StaffView, WireDay;
    ViewsCreated(rows, now);
    forall i, j | 0 <= i < j < |rows| && j == i + 1
      ensures IsoYear(rows[i].row.createdAt) && IsoYear(rows[j].row.createdAt)
      ensures !Less(ScheduleKeyOf(StaffViews(rows, now)[j]), ScheduleKeyOf(StaffViews(rows, now)[i]))
    {
      assert rows[i] in rows && rows[j] in rows;
      SoundRowHours(rows[i].row, now);
      SoundRowHours(rows[j].row, now);
      StaffViewFields(rows[i], now);
      StaffViewFields(rows[j], now);
      ScheduleKeyOrder(rows[j].row.startHour, rows[j].row.createdAt, rows[i].row.startHour, rows[i].row.createdAt);
    }
  }

  /** The frontend accepts a resource's day exactly when none of its rejected bookings has a reason that is too long. */
  lemma SchedulesAccepted(table: map<Id, Booking>, resourceId: Id, day: int, now: int, rows: seq<Stored>)
    requires TableReadable(table, now) && ResourceSchedule(table, resourceId, day, rows)
    ensures ScheduleAccepted(StaffViews(rows, now), resourceId, DayText(day))
            <==> forall x :: x in rows ==> ShortReason(x.row)
  {
    hide SoundRow, IsoYear, StaffView, StaffAccepted, Less, ScheduleKeyOf, ShortReason, IsoYear, ByStart;
    SelectedRows(table, ScheduleIds(table, resourceId, day), rows, now);
    StaffViewsReadable(rows, now);
    ScheduleOrderAccepted(rows, now);
    forall i | 0 <= i < |rows|
      ensures StaffViews(rows, now)[i].date == DayText(day) && StaffViews(rows, now)[i].resourceId == resourceId
    {
      assert rows[i] in rows;
      StaffViewFields(rows[i], now);
    }
  }
}
