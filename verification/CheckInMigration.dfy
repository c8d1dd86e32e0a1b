/**
 * The migration that hardens the check-in lifecycle: it looks for rows it
 * cannot carry over, forgets consumed codes, and swaps constraints. Both
 * directions run in one transaction that any failing statement rolls back.
 */
module CheckInMigration {
  import opened Bookings
  import opened CampusClock
  import opened Wrappers

  // ------------------------------------------------------------- constraints

  /** CHK_bookings_check_in_request before the migration. */
  predicate OldCheckInRequest(b: Booking) {
    (b.checkInCode.None? && b.checkInRequestedAt.None?)
    || (b.checkInCode.Some? && SixDigits(b.checkInCode.value) && b.checkInRequestedAt.Some?)
  }

  /** CHK_bookings_checked_in_state before the migration. */
  predicate OldCheckedInState(b: Booking) {
    if b.status in {CheckedIn, Completed} then b.checkInCode.Some? && b.checkedInAt.Some? && b.checkedInById.Some?
    else b.checkedInAt.None? && b.checkedInById.None?
  }

  /** The constraints that the migration leaves alone. */
  predicate KeptChecks(b: Booking) {
    TimeOrder(b) && CancellationState(b) && PendingUnreviewed(b) && ReviewPair(b)
    && RejectionState(b) && RejectionReasonContent(b) && CheckoutState(b) && NoShowState(b)
  }

  predicate OldChecks(b: Booking) {
    KeptChecks(b) && OldCheckInRequest(b) && OldCheckedInState(b)
  }

  // -------------------------------------------------------------- statements

  /** The where clause of the query that looks for incompatible rows. */
  predicate Incompatible(b: Booking) {
    (b.status == Confirmed && b.checkInRequestedAt.Some? && !(b.checkInCode.Some? && SixDigits(b.checkInCode.value)))
    || (b.checkInRequestedAt.Some? && !InVisitPeriod(b, b.checkInRequestedAt.value))
    || (b.status in {CheckedIn, Completed}
        && (b.checkInRequestedAt.None?
            || (b.checkedInAt.Some?
                && (b.checkedInAt.value < b.checkInRequestedAt.value || !InVisitPeriod(b, b.checkedInAt.value)))))
    || (b.status == Completed && b.checkedOutAt.Some? && b.checkedInAt.Some?
        && b.checkedOutAt.value < b.checkedInAt.value)
    || (b.status == NoShow && b.noShowAt.Some? && b.noShowAt.value < b.EndMs())
  }

  /** The row after the UPDATE that forgets consumed codes. */
  function Forgotten(b: Booking): Booking {
    if b.status in {CheckedIn, Completed, NoShow} then b.(checkInCode := None) else b
  }

  /** No other column changes, and a code is lost exactly when the visit was begun or missed. */
  lemma ForgetsTheCode(b: Booking)
    ensures var after := Forgotten(b);
            after.(checkInCode := b.checkInCode) == b && after.checkInCode in {None, b.checkInCode}
            && (after.checkInCode.None? <==> b.checkInCode.None? || b.status in {CheckedIn, Completed, NoShow})
  {
  }

  /** The where clause of the guard of `down`. */
  predicate Consumed(b: Booking) {
    b.checkInRequestedAt.Some? && b.checkInCode.None?
  }

  /** A code was generated, yet the booking never was or no longer is confirmed. */
  predicate StrayRequest(b: Booking) {
    b.checkInRequestedAt.Some? && b.status in {Pending, Rejected, Cancelled}
  }

  // ---------------------------------------------------------- one row's fate

  /**
   * A row meets the new constraints after the UPDATE exactly when the query did not list it and its
   * request is not stray.
   */
  lemma HardensExactly(b: Booking)
    requires OldChecks(b)
    ensures SatisfiesChecks(Forgotten(b)) <==> !Incompatible(b) && !StrayRequest(b)
  {
  }

  /** A row meets the old constraints exactly when the guard did not list it. */
  lemma SoftensExactly(b: Booking)
    requires SatisfiesChecks(b)
    ensures OldChecks(b) <==> !Consumed(b)
  {
  }

  datatype MigrationError = Refused(ids: set<Id>) | ConstraintViolated

  /** `LIMIT 10` of the rows that meet a where clause. */
  ghost predicate Listing(ids: set<Id>, found: set<Id>) {
    found <= ids && |found| == if |ids| < 10 then |ids| else 10
  }

  function IncompatibleIds(rows: map<Id, Booking>): set<Id> {
    set id | id in rows && Incompatible(rows[id])
  }

  function ConsumedIds(rows: map<Id, Booking>): set<Id> {
    set id | id in rows && Consumed(rows[id])
  }

  class BookingsTable {
    var rows: map<Id, Booking>
    /** The new check-in constraints are in force. */
    var hardened: bool

    /** Every row meets the constraints in force. */
    ghost predicate Valid()
      reads this
    {
      forall id :: id in rows ==> if hardened then SatisfiesChecks(rows[id]) else OldChecks(rows[id])
    }

    constructor ()
      ensures Valid() && rows == map[] && !hardened
    {
      rows, hardened := map[], false;
    }

    /** `SELECT "id" ... LIMIT 10` */
    method FirstTen(ids: set<Id>) returns (found: set<Id>)
      ensures Listing(ids, found)
    {
      found := {};
      var rest := ids;
      while rest != {} && |found| < 10
        invariant rest + found == ids && |rest| + |found| == |ids| && |found| <= 10
        decreases |rest|
      {
        var id :| id in rest;
        found, rest := found + {id}, rest - {id};
      }
    }

    /** `up` */
    method Up() returns (r: Result<(), MigrationError>)
      requires Valid() && !hardened
      modifies this
      ensures Valid()
      ensures r.Ok? <==> forall id :: id in old(rows) ==> !Incompatible(old(rows)[id]) && !StrayRequest(old(rows)[id])
      ensures r.Ok? ==> hardened && rows == map id | id in old(rows) :: Forgotten(old(rows)[id])
      ensures r.Err? ==> !hardened && rows == old(rows)
      ensures r.Err? && r.error.Refused? <==> IncompatibleIds(old(rows)) != {}
      ensures r.Err? && r.error.Refused? ==>
                Listing(IncompatibleIds(old(rows)), r.error.ids)
    {
      hide Incompatible, StrayRequest, OldChecks, Forgotten;
      var incompatible := IncompatibleIds(rows);
      var invalid := FirstTen(incompatible);
      if invalid != {} {
        var one :| one in invalid;
        assert one in incompatible;
        return Err(Refused(invalid));
      }
      assert forall id :: id in rows ==> id !in incompatible;
      var before := rows;
      rows := map id | id in rows :: Forgotten(rows[id]);
      forall id | id in before
        ensures SatisfiesChecks(rows[id]) <==> !StrayRequest(before[id])
      {
        HardensExactly(before[id]);
      }
      if id :| id in rows && !SatisfiesChecks(rows[id]) {
        rows := before;
        return Err(ConstraintViolated);
      }
      hardened := true;
      return Ok(());
    }

    /** `down`: past its guard the old constraints never fail. */
    method Down() returns (r: Result<(), MigrationError>)
      requires Valid() && hardened
      modifies this`hardened
      ensures Valid()
      ensures r.Ok? <==> forall id :: id in rows ==> !Consumed(rows[id])
      ensures r.Ok? ==> !hardened
      ensures r.Err? ==> hardened && r.error.Refused? && r.error.ids != {} && Listing(ConsumedIds(rows), r.error.ids)
    {
      hide SatisfiesChecks, OldChecks, Consumed;
      var used := ConsumedIds(rows);
      var consumed := FirstTen(used);
      if consumed != {} {
        var one :| one in consumed;
        assert one in used;
        return Err(Refused(consumed));
      }
      assert forall id :: id in rows ==> id !in used;
      forall id | id in rows
        ensures OldChecks(rows[id])
      {
        SoftensExactly(rows[id]);
      }
      hardened := false;
      return Ok(());
    }
  }

  // ----------------------------------------------------- an upgrade that fails

  /** Confirmed under the old constraints, asked for a code at the start, and cancelled then. */
  function CancelledWithCode(day: int): Booking {
    Booking(1, 1, day, 8, 9, Cancelled, HourMs(day, 8) - HOUR_MS,
            Some(HourMs(day, 8)), None, None, None, Some("000000"), Some(HourMs(day, 8)), None, None, None, None, None,
            None)
  }

  /** On every day there is a row that the old constraints allow, the query does not list and the new ones refuse. */
  lemma StrayRowFails(day: int)
    ensures var b := CancelledWithCode(day);
            OldChecks(b) && !Incompatible(b) && StrayRequest(b) && !SatisfiesChecks(Forgotten(b))
  {
    HardensExactly(CancelledWithCode(day));
  }

  /** On the table of that one row the upgrade finds nothing to list, and then fails on the new constraint. */
  method UpgradeFails(bookings: BookingsTable, day: int) returns (r: Result<(), MigrationError>)
    requires !bookings.hardened && bookings.rows == map[1 := CancelledWithCode(day)]
    modifies bookings
    ensures r == Err(ConstraintViolated) && bookings.rows == old(bookings.rows) && !bookings.hardened
  {
    StrayRowFails(day);
    hide OldChecks, Incompatible, StrayRequest, SatisfiesChecks, CancelledWithCode, Forgotten;
    ghost var before := bookings.rows;
    assert bookings.Valid();
    r := bookings.Up();
    assert 1 in before && !(!Incompatible(before[1]) && !StrayRequest(before[1]));
    assert IncompatibleIds(before) == {};
  }

  /** A downgrade that the guard lets through right after an upgrade finds every row as it was. */
  lemma UpThenDownRestores(before: map<Id, Booking>)
    requires forall id :: id in before ==> OldChecks(before[id])
    requires forall id :: id in before ==> !Consumed(Forgotten(before[id]))
    ensures (map id | id in before :: Forgotten(before[id])) == before
  {
  }
}
