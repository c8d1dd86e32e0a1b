/** The student's booking list: how the service splits and sorts it, and the parser that reads it. */
module Timeline {
  import opened Bookings
  import opened Calendar
  import opened Decimal
  import opened FrontendBookings
  import opened WireText

  /** A row together with its primary key. */
  datatype Stored = Stored(id: Id, row: Booking)

  predicate ActiveForStudent(b: Booking, now: int) {
    (b.status == Pending || b.status == Confirmed || b.status == CheckedIn) && now < b.EndMs()
  }

  /** The rows that are active, or those that are not, in their order. */
  function Chosen(rows: seq<Stored>, now: int, active: bool): seq<Stored> {
    if rows == [] then []
    else
      var last := rows[|rows| - 1];
      Chosen(rows[..|rows| - 1], now, active) + if ActiveForStudent(last.row, now) == active then [last] else []
  }

  function StartOf(x: Stored): string {
    StartText(x.row)
  }

  /** Puts `x` behind every element that does not start earlier. */
  function InsertDescending(sorted: seq<Stored>, x: Stored): seq<Stored> {
    if sorted == [] then [x]
    else
      var last := sorted[|sorted| - 1];
      if Less(StartOf(last), StartOf(x)) then InsertDescending(sorted[..|sorted| - 1], x) + [last] else sorted + [x]
  }

  /** The stable sort by `right.start.localeCompare(left.start)`. */
  function SortDescending(rows: seq<Stored>): seq<Stored> {
    if rows == [] then [] else InsertDescending(SortDescending(rows[..|rows| - 1]), rows[|rows| - 1])
  }

  /** The loop of `findForStudent` over the rows the query returned. */
  method FindForStudent(rows: seq<Stored>, now: int) returns (upcoming: seq<Stored>, history: seq<Stored>)
    ensures upcoming == Chosen(rows, now, true)
    ensures history == SortDescending(Chosen(rows, now, false))
    ensures multiset(upcoming) + multiset(history) == multiset(rows)
    ensures forall x :: x in upcoming ==> ActiveForStudent(x.row, now)
    ensures forall x :: x in history ==> !ActiveForStudent(x.row, now)
    ensures Descending(history)
  {
    upcoming, history := [], [];
    for i := 0 to |rows|
      invariant upcoming == Chosen(rows[..i], now, true)
      invariant history == Chosen(rows[..i], now, false)
    {
      assert rows[..i + 1][..i] == rows[..i];
      if ActiveForStudent(rows[i].row, now) {
        upcoming := upcoming + [rows[i]];
      } else {
        history := history + [rows[i]];
      }
    }
    assert rows[..|rows|] == rows;
    ChosenSplits(rows, now);
    ChosenHolds(rows, now, true);
    ChosenHolds(rows, now, false);
    SortKeeps(history);
    SortOrders(history);
    SameElements(SortDescending(history), history);
    history := SortDescending(history);
  }

  // --------------------------------------------------------------- the split

  lemma {:induction false} ChosenHolds(rows: seq<Stored>, now: int, active: bool)
    ensures forall x :: x in Chosen(rows, now, active) <==> x in rows && ActiveForStudent(x.row, now) == active
  {
    if rows != [] {
      ChosenHolds(rows[..|rows| - 1], now, active);
      assert rows == rows[..|rows| - 1] + [rows[|rows| - 1]];
    }
  }

  /** The last row joins one of the two parts. */
  lemma AppendedSplits(a: seq<Stored>, b: seq<Stored>, front: seq<Stored>, x: Stored)
    requires multiset(a) + multiset(b) == multiset(front)
    ensures multiset(a + [x]) + multiset(b) == multiset(front + [x])
  {
    assert multiset(a + [x]) == multiset(a) + multiset{x};
    assert multiset(front + [x]) == multiset(front) + multiset{x};
  }

  lemma ChosenOfLast(front: seq<Stored>, x: Stored, now: int, active: bool)
    ensures Chosen(front + [x], now, active)
         == if ActiveForStudent(x.row, now) == active then Chosen(front, now, active) + [x]
            else Chosen(front, now, active)
  {
    hide ActiveForStudent;
    assert (front + [x])[..|front|] == front;
    assert Chosen(front, now, active) + [] == Chosen(front, now, active);
  }

  lemma {:induction false} ChosenSplits(rows: seq<Stored>, now: int)
    ensures multiset(Chosen(rows, now, true)) + multiset(Chosen(rows, now, false)) == multiset(rows)
  {
    if rows != [] {
      hide ActiveForStudent, Chosen;
      var front, last := rows[..|rows| - 1], rows[|rows| - 1];
      assert rows == front + [last];
      ChosenSplits(front, now);
      ChosenOfLast(front, last, now, true);
      ChosenOfLast(front, last, now, false);
      var active := ActiveForStudent(last.row, now);
      AppendedSplits(Chosen(front, now, active), Chosen(front, now, !active), front, last);
    } else {
      assert Chosen(rows, now, true) == Chosen(rows, now, false) == [];
    }
  }

  /** By date and start, as the query orders them. */
  predicate Ascending(rows: seq<Stored>) {
    forall i, j :: 0 <= i < j < |rows| ==> !StartsBefore(rows[j].row, rows[i].row)
  }

  lemma {:induction false} ChosenAscends(rows: seq<Stored>, now: int, active: bool)
    requires Ascending(rows)
    ensures Ascending(Chosen(rows, now, active))
  {
    if rows != [] {
      hide ActiveForStudent, StartsBefore;
      var front := rows[..|rows| - 1];
      ChosenAscends(front, now, active);
      ChosenHolds(front, now, active);
      var s := Chosen(front, now, active);
      forall i | 0 <= i < |s|
        ensures !StartsBefore(rows[|rows| - 1].row, s[i].row)
      {
        assert s[i] in front;
      }
    }
  }

  // ---------------------------------------------------------------- the sort

  predicate Descending(rows: seq<Stored>) {
    forall i, j :: 0 <= i < j < |rows| ==> !Less(StartOf(rows[i]), StartOf(rows[j]))
  }

  lemma {:induction false} InsertKeeps(sorted: seq<Stored>, x: Stored)
    ensures multiset(InsertDescending(sorted, x)) == multiset(sorted) + multiset{x}
  {
    hide StartOf, Less;
    if sorted != [] {
      InsertKeeps(sorted[..|sorted| - 1], x);
      assert sorted == sorted[..|sorted| - 1] + [sorted[|sorted| - 1]];
    }
  }

  lemma {:induction false} SortKeeps(rows: seq<Stored>)
    ensures multiset(SortDescending(rows)) == multiset(rows)
  {
    hide InsertDescending;
    if rows != [] {
      SortKeeps(rows[..|rows| - 1]);
      InsertKeeps(SortDescending(rows[..|rows| - 1]), rows[|rows| - 1]);
      assert rows == rows[..|rows| - 1] + [rows[|rows| - 1]];
    }
  }

  lemma SameElements(a: seq<Stored>, b: seq<Stored>)
    requires multiset(a) == multiset(b)
    ensures forall x :: x in a <==> x in b
  {
    forall x
      ensures x in a <==> x in b
    {
      assert x in a <==> x in multiset(a);
      assert x in b <==> x in multiset(b);
    }
  }

  lemma {:induction false} InsertOrders(sorted: seq<Stored>, x: Stored)
    requires Descending(sorted)
    ensures Descending(InsertDescending(sorted, x))
  {
    hide StartOf, Less;
    if sorted != [] {
      var front, last := sorted[..|sorted| - 1], sorted[|sorted| - 1];
      if Less(StartOf(last), StartOf(x)) {
        InsertOrders(front, x);
        InsertKeeps(front, x);
        var s := InsertDescending(front, x);
        forall i | 0 <= i < |s|
          ensures !Less(StartOf(s[i]), StartOf(last))
        {
          assert s[i] in multiset(s);
          if s[i] == x {
            NotBothLess(StartOf(last), StartOf(x));
          } else {
            assert s[i] in front;
          }
        }
      } else {
        forall i | 0 <= i < |sorted|
          ensures !Less(StartOf(sorted[i]), StartOf(x))
        {
          if i < |sorted| - 1 {
            NotLessTransitive(StartOf(sorted[i]), StartOf(last), StartOf(x));
          }
        }
      }
    }
  }

  lemma NotBothLess(a: string, b: string)
    requires Less(a, b)
    ensures !Less(b, a)
  {
  }

  lemma {:induction false} SortOrders(rows: seq<Stored>)
    ensures Descending(SortDescending(rows))
  {
    if rows != [] {
      SortOrders(rows[..|rows| - 1]);
      InsertOrders(SortDescending(rows[..|rows| - 1]), rows[|rows| - 1]);
    }
  }

  /** The rows with one start, in their order. */
  function Starting(rows: seq<Stored>, start: string): seq<Stored> {
    if rows == [] then []
    else Starting(rows[..|rows| - 1], start) + if StartOf(rows[|rows| - 1]) == start then [rows[|rows| - 1]] else []
  }

  lemma {:induction false} InsertStable(sorted: seq<Stored>, x: Stored, start: string)
    ensures Starting(InsertDescending(sorted, x), start)
         == Starting(sorted, start) + if StartOf(x) == start then [x] else []
  {
    hide StartOf, Less;
    var s := InsertDescending(sorted, x);
    if sorted != [] && Less(StartOf(sorted[|sorted| - 1]), StartOf(x)) {
      var front := sorted[..|sorted| - 1];
      InsertStable(front, x, start);
      assert s[..|s| - 1] == InsertDescending(front, x);
      LessIrreflexive(StartOf(x));
    } else {
      assert s[..|s| - 1] == sorted;
    }
  }

  /** Bookings with the same start keep the order of the query. */
  lemma {:induction false} SortStable(rows: seq<Stored>, start: string)
    ensures Starting(SortDescending(rows), start) == Starting(rows, start)
  {
    if rows != [] {
      SortStable(rows[..|rows| - 1], start);
      InsertStable(SortDescending(rows[..|rows| - 1]), rows[|rows| - 1], start);
    }
  }

  // -------------------------------------------------------------- the parser

  predicate Open(status: Status) {
    status == Pending || status == Confirmed || status == CheckedIn
  }

  /** `bookingStart` of a parsed response. */
  function ResponseStart(r: StudentResponse): string {
    r.date + "T" + r.startTime
  }

  /** `parseStudentBookingTimeline` returns a timeline rather than null. */
  ghost predicate TimelineAccepted(upcoming: seq<StudentResponse>, history: seq<StudentResponse>) {
    (forall i :: 0 <= i < |upcoming| ==>
       StudentAccepted(upcoming[i]) && !upcoming[i].hasEnded && Open(upcoming[i].status))
    && (forall i :: 0 <= i < |history| ==>
          StudentAccepted(history[i]) && (Open(history[i].status) ==> history[i].hasEnded))
    && (forall i, j :: 0 <= i < j < |upcoming| + |history| ==> (upcoming + history)[i].id != (upcoming + history)[j].id)
    && (forall i, j :: 0 <= i < j < |upcoming| && j == i + 1 ==>
          !Less(ResponseStart(upcoming[j]), ResponseStart(upcoming[i])))
    && (forall i, j :: 0 <= i < j < |history| && j == i + 1 ==>
          !Less(ResponseStart(history[i]), ResponseStart(history[j])))
  }

  function Views(rows: seq<Stored>, evaluatedAt: int): seq<StudentResponse> {
    seq(|rows|, i requires 0 <= i < |rows| => StudentView(rows[i].id, rows[i].row, evaluatedAt))
  }

  predicate DistinctIds(rows: seq<Stored>) {
    forall i, j :: 0 <= i < j < |rows| ==> rows[i].id != rows[j].id
  }

  lemma OthersDiffer(a: seq<Stored>, k: nat, y: Stored)
    requires DistinctIds(a) && k < |a| && y in a[..k] + a[k + 1..]
    ensures y.id != a[k].id
  {
  }

  lemma WithoutKeepsDistinct(a: seq<Stored>, k: nat)
    requires DistinctIds(a) && k < |a|
    ensures DistinctIds(a[..k] + a[k + 1..])
  {
  }

  /** Rearranging rows with distinct ids leaves them distinct. */
  lemma {:induction false} RearrangedDistinct(a: seq<Stored>, b: seq<Stored>)
    requires multiset(a) == multiset(b) && DistinctIds(a)
    ensures DistinctIds(b)
  {
    if b != [] {
      var k := WithoutFirst(a, b);
      var rest := a[..k] + a[k + 1..];
      WithoutKeepsDistinct(a, k);
      RearrangedDistinct(rest, b[1..]);
      SameElements(rest, b[1..]);
      forall j | 0 < j < |b|
        ensures b[j].id != b[0].id
      {
        assert b[1..][j - 1] in b[1..];
        OthersDiffer(a, k, b[j]);
      }
    }
  }

  lemma WithoutFirst(a: seq<Stored>, b: seq<Stored>) returns (k: nat)
    requires multiset(a) == multiset(b) && b != []
    ensures k < |a| && a[k] == b[0]
    ensures multiset(a[..k] + a[k + 1..]) == multiset(b[1..])
  {
    assert b == [b[0]] + b[1..];
    assert b[0] in multiset(a);
    k :| 0 <= k < |a| && a[k] == b[0];
    assert a == a[..k] + ([b[0]] + a[k + 1..]);
    assert multiset(a[..k] + a[k + 1..]) + multiset{b[0]} == multiset(a);
    assert multiset(b[1..]) + multiset{b[0]} == multiset(b);
    Cancel(multiset(a[..k] + a[k + 1..]), multiset(b[1..]), b[0]);
  }

  lemma Cancel(p: multiset<Stored>, q: multiset<Stored>, x: Stored)
    requires p + multiset{x} == q + multiset{x}
    ensures p == q
  {
    assert p == p + multiset{x} - multiset{x};
    assert q == q + multiset{x} - multiset{x};
  }

  lemma ResponseStartIs(x: Stored, evaluatedAt: int)
    ensures ResponseStart(StudentView(x.id, x.row, evaluatedAt)) == StartOf(x)
  {
  }

  ghost predicate RowsReadable(rows: seq<Stored>, now: int) {
    forall x :: x in rows ==> SoundRow(x.row, now)
  }

  lemma UpcomingChronological(rows: seq<Stored>, now: int)
    requires RowsReadable(rows, now) && Ascending(rows)
    ensures forall i, j :: 0 <= i < j < |rows| ==> !Less(StartOf(rows[j]), StartOf(rows[i]))
  {
    hide Less, StartText, SoundRow, StartsBefore;
    forall i, j | 0 <= i < j < |rows|
      ensures !Less(StartOf(rows[j]), StartOf(rows[i]))
    {
      assert rows[i] in rows && rows[j] in rows;
      SoundRowHours(rows[i].row, now);
      SoundRowHours(rows[j].row, now);
      StartTextOrder(rows[j].row, rows[i].row);
    }
  }

  lemma SoundRowHours(b: Booking, now: int)
    requires SoundRow(b, now)
    ensures b.startHour < b.endHour <= 23 && WireDay(b.date)
  {
  }

  lemma ViewsAccepted(rows: seq<Stored>, now: int)
    requires RowsReadable(rows, now)
    ensures forall i :: 0 <= i < |rows| ==> StudentAccepted(Views(rows, now)[i])
  {
    hide StudentAccepted, StudentView, SoundRow, WireDay;
    forall i | 0 <= i < |rows|
      ensures StudentAccepted(Views(rows, now)[i])
    {
      StudentResponsesAccepted(rows[i].id, rows[i].row, now, now);
    }
  }

  lemma ViewsClassified(rows: seq<Stored>, now: int, active: bool)
    requires forall x :: x in rows ==> ActiveForStudent(x.row, now) == active
    ensures forall i :: 0 <= i < |rows| ==>
              (Open(Views(rows, now)[i].status) && !Views(rows, now)[i].hasEnded) == active
  {
  }

  lemma ViewsIds(rows: seq<Stored>, now: int)
    ensures |Views(rows, now)| == |rows| && forall i :: 0 <= i < |rows| ==> Views(rows, now)[i].id == rows[i].id
  {
  }

  lemma ViewsDistinct(up: seq<Stored>, history: seq<Stored>, now: int)
    requires DistinctIds(up + history)
    ensures forall i, j :: 0 <= i < j < |up| + |history| ==>
              (Views(up, now) + Views(history, now))[i].id != (Views(up, now) + Views(history, now))[j].id
  {
    ViewsIds(up, now);
    ViewsIds(history, now);
    hide Views;
    var both := Views(up, now) + Views(history, now);
    forall i | 0 <= i < |both|
      ensures both[i].id == (up + history)[i].id
    {
    }
  }

  /** Whatever rows the student has, the frontend accepts the timeline the service makes of them. */
  lemma StudentTimelineAccepted(rows: seq<Stored>, now: int)
    requires RowsReadable(rows, now) && DistinctIds(rows) && Ascending(rows)
    ensures TimelineAccepted(Views(Chosen(rows, now, true), now), Views(SortDescending(Chosen(rows, now, false)), now))
  {
    hide StudentAccepted, SoundRow, WireDay, Less, StartsBefore, StudentView, Chosen, SortDescending, Open,
      ResponseStart, StartOf, Views;
    var up, rest := Chosen(rows, now, true), Chosen(rows, now, false);
    var history := SortDescending(rest);
    ChosenHolds(rows, now, true);
    ChosenHolds(rows, now, false);
    SortKeeps(rest);
    SameElements(history, rest);
    ChosenAscends(rows, now, true);
    UpcomingChronological(up, now);
    SortOrders(rest);
    ChosenSplits(rows, now);
    RearrangedDistinct(rows, up + history);
    TimelineOfParts(up, history, now);
  }

  /** An active ascending part and an inactive descending part make an accepted timeline. */
  lemma TimelineOfParts(up: seq<Stored>, history: seq<Stored>, now: int)
    requires RowsReadable(up, now) && RowsReadable(history, now) && DistinctIds(up + history)
    requires forall x :: x in up ==> ActiveForStudent(x.row, now)
    requires forall x :: x in history ==> !ActiveForStudent(x.row, now)
    requires forall i, j :: 0 <= i < j < |up| ==> !Less(StartOf(up[j]), StartOf(up[i]))
    requires Descending(history)
    ensures TimelineAccepted(Views(up, now), Views(history, now))
  {
    hide StudentAccepted, SoundRow, WireDay, Less, StudentView, Open, ResponseStart, StartOf, ActiveForStudent;
    ViewsAccepted(up, now);
    ViewsAccepted(history, now);
    ViewsClassified(up, now, true);
    ViewsClassified(history, now, false);
    ViewsChronological(up, history, now);
    ViewsDistinct(up, history, now);
  }

  lemma ViewsChronological(up: seq<Stored>, history: seq<Stored>, now: int)
    requires forall i, j :: 0 <= i < j < |up| ==> !Less(StartOf(up[j]), StartOf(up[i]))
    requires Descending(history)
    ensures forall i, j :: 0 <= i < j < |up| && j == i + 1 ==>
              !Less(ResponseStart(Views(up, now)[j]), ResponseStart(Views(up, now)[i]))
    ensures forall i, j :: 0 <= i < j < |history| && j == i + 1 ==>
              !Less(ResponseStart(Views(history, now)[i]), ResponseStart(Views(history, now)[j]))
  {
    hide Less, StartOf, ResponseStart, StudentView;
    forall i | 0 <= i < |up|
      ensures ResponseStart(Views(up, now)[i]) == StartOf(up[i])
    {
      ResponseStartIs(up[i], now);
    }
    forall i | 0 <= i < |history|
      ensures ResponseStart(Views(history, now)[i]) == StartOf(history[i])
    {
      ResponseStartIs(history[i], now);
    }
  }
}
