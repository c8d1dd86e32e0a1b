/** The demo catalog import: upserts resources and adds closures without touching what bookings hold. */
module CatalogImport {
  import opened Bookings
  import opened Campus
  import opened CampusClock
  import opened CampusInvariants
  import opened CampusRuns
  import opened CatalogDates
  import opened Resources
  import opened Services
  import opened Wrappers

  datatype CatalogClosure = CatalogClosure(dayOffset: int, reason: string)

  datatype CatalogEntry = CatalogEntry(row: ImportRow, closures: seq<CatalogClosure>)

  /** `validateCatalog` refuses duplicate resource codes. */
  predicate DistinctCodes(catalog: seq<CatalogEntry>) {
    forall i, j :: 0 <= i < j < |catalog| ==> catalog[i].row.code != catalog[j].row.code
  }

  /** The row reads as the catalog says. */
  predicate Reads(row: Resource, entry: CatalogEntry) {
    row == entry.row.(createdAt := row.createdAt)
  }

  ghost predicate ClosureDone(db: Database, id: Id, entry: CatalogEntry, closure: CatalogClosure, today: int) {
    var day := ClosureDay(today + closure.dayOffset, entry.row.operatingDays);
    db.Closed(id, day) || HasActiveBookingOn(db, id, day)
  }

  /** The resource carries the entry, unless active bookings held it or one of its closure days. */
  ghost predicate EntryDoneAt(db: Database, id: Id, entry: CatalogEntry, today: int) {
    HasCode(db, id, entry.row.code)
    && (HasActiveBooking(db, id) || Reads(db.resources[id], entry))
    && ClosuresDone(db, id, entry, |entry.closures|, today)
  }

  ghost predicate EntryDone(db: Database, entry: CatalogEntry, today: int) {
    exists id :: EntryDoneAt(db, id, entry, today)
  }

  /** From `a` to `b` bookings, closures and held resources stayed as they were. */
  ghost predicate Spares(a: Database, b: Database) {
    b.bookings == a.bookings
    && (forall id :: id in a.resources ==> id in b.resources && b.resources[id].code == a.resources[id].code)
    && (forall id :: id in a.resources && HasActiveBooking(a, id) ==> b.resources[id] == a.resources[id])
    && (forall k :: k in a.closures ==> k in b.closures && b.closures[k] == a.closures[k])
  }

  /** A booking of the resource with the code holds its slot, ended or not. */
  ghost predicate Held(db: Database, code: string) {
    exists id :: HasCode(db, id, code) && HasActiveBooking(db, id)
  }

  /** The codes that bookings hold, in the order of the catalog. */
  ghost function HeldCodes(db: Database, catalog: seq<CatalogEntry>, n: nat): seq<string>
    requires n <= |catalog|
  {
    if n == 0 then []
    else
      var code := catalog[n - 1].row.code;
      HeldCodes(db, catalog, n - 1) + if Held(db, code) then [code] else []
  }

  predicate Listed(catalog: seq<CatalogEntry>, n: nat, code: string) {
    exists i :: 0 <= i < n && i < |catalog| && catalog[i].row.code == code
  }

  function ClosureTotal(catalog: seq<CatalogEntry>, n: nat): nat
    requires n <= |catalog|
  {
    if n == 0 then 0 else ClosureTotal(catalog, n - 1) + |catalog[n - 1].closures|
  }

  predicate AsksFor(db: Database, entry: CatalogEntry, closure: CatalogClosure, key: (Id, int), reason: string,
                    today: int)
  {
    HasCode(db, key.0, entry.row.code) && key.1 == ClosureDay(today + closure.dayOffset, entry.row.operatingDays)
    && closure.reason == reason
  }

  /** One of the first `n` closures of the entry is the one, and no booking holds a slot that day. */
  ghost predicate AskedByEntry(db: Database, entry: CatalogEntry, n: nat, key: (Id, int), reason: string, today: int) {
    !HasActiveBookingOn(db, key.0, key.1)
    && exists j :: 0 <= j < n && j < |entry.closures| && AsksFor(db, entry, entry.closures[j], key, reason, today)
  }

  ghost predicate AskedFor(db: Database, catalog: seq<CatalogEntry>, n: nat, key: (Id, int), reason: string, today: int)
  {
    exists i :: 0 <= i < n && i < |catalog|
                && AskedByEntry(db, catalog[i], |catalog[i].closures|, key, reason, today)
  }

  /** Resources are inserted and rewritten under the first `n` codes only, and those rewritten keep their creation. */
  ghost predicate RowsAsListed(a: Database, b: Database, catalog: seq<CatalogEntry>, n: nat, now: int) {
    (forall id :: id in b.resources && !Listed(catalog, n, b.resources[id].code) ==>
       id in a.resources && b.resources[id] == a.resources[id])
    && (forall id :: id in b.resources ==>
          b.resources[id].createdAt == if id in a.resources then a.resources[id].createdAt else now)
  }

  /** Closures are added only where the first `n` entries ask for them. */
  ghost predicate ClosuresAsAsked(a: Database, b: Database, catalog: seq<CatalogEntry>, n: nat, today: int) {
    forall k :: k in b.closures && k !in a.closures ==> AskedFor(b, catalog, n, k, b.closures[k].reason, today)
  }

  lemma AskedStays(a: Database, b: Database, entry: CatalogEntry, n: nat, key: (Id, int), reason: string, today: int)
    requires AskedByEntry(a, entry, n, key, reason, today) && Spares(a, b)
    ensures AskedByEntry(b, entry, n, key, reason, today)
  {
    var j :| 0 <= j < n && j < |entry.closures| && AsksFor(a, entry, entry.closures[j], key, reason, today);
    assert AsksFor(b, entry, entry.closures[j], key, reason, today);
    if HasActiveBookingOn(b, key.0, key.1) {
      var held :| b.Blocks(held, key.0, key.1);
      assert a.Blocks(held, key.0, key.1);
    }
  }

  /** The import adds no code that a booking holds, and frees none. */
  lemma HeldStays(a: Database, b: Database, code: string, now: int)
    requires Sound(a, now) && Spares(a, b)
    ensures Held(a, code) <==> Held(b, code)
  {
    if id :| HasCode(b, id, code) && HasActiveBooking(b, id) {
      var held :| held in b.bookings && b.bookings[held].resourceId == id && b.bookings[held].Blocking();
      assert NotStranded(a, a.bookings[held], now);
      assert HasCode(a, id, code) && HasActiveBooking(a, id);
    }
    if id :| HasCode(a, id, code) && HasActiveBooking(a, id) {
      assert HasCode(b, id, code) && HasActiveBooking(b, id);
    }
  }

  lemma SparesTransitive(a: Database, b: Database, c: Database)
    requires Spares(a, b) && Spares(b, c)
    ensures Spares(a, c)
  {
  }

  lemma {:induction false} UnusedId(used: set<Id>) returns (id: Id)
    ensures forall x :: x in used ==> x < id
  {
    if used == {} {
      id := 0;
    } else {
      var x :| x in used;
      var rest := UnusedId(used - {x});
      assert forall y :: y in used ==> y == x || y in used - {x};
      id := if x < rest then rest else x + 1;
    }
  }

  datatype UpsertOutcome = Inserted | Updated | Skipped

  /** From `a` to `b` the upsert of the row inserted, updated or skipped the resource. */
  ghost predicate Upserted(a: Database, b: Database, id: Id, row: ImportRow, outcome: UpsertOutcome, now: int) {
    b.closures == a.closures && b.bookings == a.bookings
    && match outcome
       case Inserted =>
         id !in a.resources && !CodeTaken(a, row.code) && b.resources == a.resources[id := row.(createdAt := now)]
       case Updated =>
         HasCode(a, id, row.code) && !HasActiveBooking(a, id)
           && b.resources == a.resources[id := row.(createdAt := a.resources[id].createdAt)]
       case Skipped => HasCode(a, id, row.code) && HasActiveBooking(a, id) && b.resources == a.resources
  }

  /** The upsert of one resource. */
  method UpsertResource(db: CampusServices, row: ImportRow, now: int) returns (id: Id, outcome: UpsertOutcome)
    requires db.Valid() && db.clock == now
    modifies db`resources
    ensures db.Valid() && HasCode(db.Tables(), id, row.code)
    ensures Performed(old(db.Tables()), ImportResource(id, row), now, db.Tables(), [], None)
    ensures Upserted(old(db.Tables()), db.Tables(), id, row, outcome, now)
    ensures Spares(old(db.Tables()), db.Tables())
  {
    hide Sound, Spares, Performed, HasActiveBooking, CodesUnique, Upserted;
    ghost var before := db.Tables();
    var same := set i | i in db.resources && db.resources[i].code == row.code;
    assert forall i :: HasCode(before, i, row.code) <==> i in same;
    SoundParts(before, now);
    if same == {} {
      ghost var unused := UnusedId(db.resources.Keys);
      assert unused !in db.resources;
      id :| id !in db.resources;
      outcome := Inserted;
      UpsertOfNew(before, id, row, now);
      db.resources := db.resources[id := row.(createdAt := now)];
    } else {
      id :| id in same;
      UpsertOfKnown(before, id, row, now);
      HasActiveExactly(before, id);
      if exists b :: b in db.bookings && db.bookings[b].resourceId == id && db.bookings[b].Blocking() {
        outcome := Skipped;
      } else {
        outcome := Updated;
        db.resources := db.resources[id := row.(createdAt := db.resources[id].createdAt)];
      }
    }
  }

  lemma HasActiveExactly(db: Database, id: Id)
    ensures HasActiveBooking(db, id)
       <==> exists b :: b in db.bookings && db.bookings[b].resourceId == id && db.bookings[b].Blocking()
  {
  }

  lemma UpsertOfNew(db: Database, id: Id, row: ImportRow, now: int)
    requires Sound(db, now) && id !in db.resources && forall i :: !HasCode(db, i, row.code)
    ensures var after := db.(resources := db.resources[id := row.(createdAt := now)]);
            Performed(db, ImportResource(id, row), now, after, [], None) && Sound(after, now) && Spares(db, after)
            && Upserted(db, after, id, row, Inserted, now)
  {
    hide HasActiveBooking, Sound, Spares;
    ImportResourceKeepsSound(db, id, row, now);
    SparesNewRow(db, id, row.(createdAt := now));
  }

  lemma UpsertOfKnown(db: Database, id: Id, row: ImportRow, now: int)
    requires Sound(db, now) && HasCode(db, id, row.code)
    ensures var after := if HasActiveBooking(db, id) then db
                         else db.(resources := db.resources[id := row.(createdAt := db.resources[id].createdAt)]);
            Performed(db, ImportResource(id, row), now, after, [], None) && Sound(after, now) && Spares(db, after)
            && Upserted(db, after, id, row, if HasActiveBooking(db, id) then Skipped else Updated, now)
  {
    SoundParts(db, now);
    HolderUnique(db, row.code, id);
    hide HasActiveBooking, Sound, Spares, Holder, CodesUnique, ExecuteImportResource;
    ImportOfKnown(db, id, row, now);
    ImportResourceKeepsSound(db, id, row, now);
    SparesReflexive(db);
    if !HasActiveBooking(db, id) {
      SparesNewRow(db, id, row.(createdAt := db.resources[id].createdAt));
    }
  }

  lemma ImportOfKnown(db: Database, id: Id, row: ImportRow, now: int)
    requires Holder(db, row.code) == Some(id) && HasCode(db, id, row.code)
    ensures ExecuteImportResource(db, id, row, now)
         == Outcome(if HasActiveBooking(db, id) then db
                    else db.(resources := db.resources[id := row.(createdAt := db.resources[id].createdAt)]), None, [])
  {
    hide HasActiveBooking, Holder;
  }

  lemma SparesReflexive(db: Database)
    ensures Spares(db, db)
  {
  }

  /** Writing a row that no booking needs and that keeps its code. */
  lemma SparesNewRow(db: Database, id: Id, row: Resource)
    requires id in db.resources ==> !HasActiveBooking(db, id) && db.resources[id].code == row.code
    ensures Spares(db, db.(resources := db.resources[id := row]))
  {
  }

  ghost predicate ClosuresDone(db: Database, id: Id, entry: CatalogEntry, n: nat, today: int) {
    forall i :: 0 <= i < n && i < |entry.closures| ==> ClosureDone(db, id, entry, entry.closures[i], today)
  }

  lemma ClosureStaysDone(a: Database, b: Database, id: Id, entry: CatalogEntry, closure: CatalogClosure, today: int)
    requires ClosureDone(a, id, entry, closure, today) && Spares(a, b)
    ensures ClosureDone(b, id, entry, closure, today)
  {
    var day := ClosureDay(today + closure.dayOffset, entry.row.operatingDays);
    if !a.Closed(id, day) {
      var held :| a.Blocks(held, id, day);
      assert b.Blocks(held, id, day);
    }
  }

  lemma ClosuresStayDone(a: Database, b: Database, id: Id, entry: CatalogEntry, n: nat, today: int)
    requires ClosuresDone(a, id, entry, n, today) && Spares(a, b)
    ensures ClosuresDone(b, id, entry, n, today)
  {
    forall i | 0 <= i < n && i < |entry.closures|
      ensures ClosureDone(b, id, entry, entry.closures[i], today)
    {
      ClosureStaysDone(a, b, id, entry, entry.closures[i], today);
    }
  }

  lemma SparesNewClosure(db: Database, id: Id, day: int, closure: Closure)
    requires !db.Closed(id, day)
    ensures Spares(db, db.(closures := db.closures[(id, day) := closure]))
  {
  }

  /** The guarded insert of one closure. */
  method AddClosure(db: CampusServices, id: Id, day: int, reason: string, now: int)
      returns (added: bool, ghost closure: Closure)
    requires db.Valid() && db.clock == now && id in db.resources
    modifies db`closures
    ensures db.Valid() && closure.reason == reason
    ensures Performed(old(db.Tables()), ImportClosure(id, day, closure), now, db.Tables(), [], None)
    ensures Spares(old(db.Tables()), db.Tables())
    ensures db.Tables().Closed(id, day) || HasActiveBookingOn(db.Tables(), id, day)
    ensures added <==> !old(db.Tables()).Closed(id, day) && !HasActiveBookingOn(db.Tables(), id, day)
    ensures !added ==> db.closures == old(db.closures)
    ensures added ==> db.closures == old(db.closures)[(id, day) := closure]
  {
    hide Sound, Spares;
    SparesReflexive(db.Tables());
    var used := set k | k in db.closures :: db.closures[k].id;
    ghost var unused := UnusedId(used);
    assert unused !in used;
    var closureId: Id :| closureId !in used;
    closure := Closure(closureId, reason);
    assert !HasClosureId(db.Tables(), closureId);
    if (exists b :: b in db.bookings && db.Tables().Blocks(b, id, day)) || (id, day) in db.closures {
      return false, closure;
    }
    ImportClosureKeepsSound(db.Tables(), id, day, closure, now);
    SparesNewClosure(db.Tables(), id, day, closure);
    db.closures := db.closures[(id, day) := Closure(closureId, reason)];
    return true, closure;
  }

  ghost predicate AddedAsAsked(a: Database, b: Database, entry: CatalogEntry, n: nat, today: int) {
    forall k :: k in b.closures && k !in a.closures ==> AskedByEntry(b, entry, n, k, b.closures[k].reason, today)
  }

  /** The first `n` closures of the entry took `a` to `b`. */
  ghost predicate ClosuresMade(a: Database, b: Database, id: Id, entry: CatalogEntry, n: nat, added: nat, skipped: nat,
                               today: int)
  {
    Spares(a, b) && b.resources == a.resources && b.bookings == a.bookings && HasCode(b, id, entry.row.code)
    && ClosuresDone(b, id, entry, n, today) && AddedAsAsked(a, b, entry, n, today)
    && added + skipped == n && |b.closures| == |a.closures| + added
  }

  lemma NoClosureMade(db: Database, id: Id, entry: CatalogEntry, today: int)
    requires HasCode(db, id, entry.row.code)
    ensures ClosuresMade(db, db, id, entry, 0, 0, 0, today)
  {
    hide HasActiveBooking;
  }

  /** What `AddClosure` does for the day of the entry's closure `n`. */
  ghost predicate ClosureTried(b: Database, c: Database, id: Id, entry: CatalogEntry, n: nat, closure: Closure,
                               isNew: bool, today: int)
    requires n < |entry.closures|
  {
    var day := ClosureDay(today + entry.closures[n].dayOffset, entry.row.operatingDays);
    closure.reason == entry.closures[n].reason
    && (if isNew then !HasActiveBookingOn(c, id, day) && !b.Closed(id, day)
        else c.Closed(id, day) || HasActiveBookingOn(c, id, day))
    && c == b.(closures := if isNew then b.closures[(id, day) := closure] else b.closures)
  }

  lemma OneMoreClosure(a: Database, b: Database, c: Database, id: Id, entry: CatalogEntry, n: nat, added: nat,
                       skipped: nat, closure: Closure, isNew: bool, today: int)
    requires n < |entry.closures| && ClosuresMade(a, b, id, entry, n, added, skipped, today)
    requires ClosureTried(b, c, id, entry, n, closure, isNew, today) && Spares(b, c)
    ensures ClosuresMade(a, c, id, entry, n + 1, if isNew then added + 1 else added,
                         if isNew then skipped else skipped + 1, today)
  {
    hide AskedByEntry, AsksFor, HasActiveBooking, HasActiveBookingOn;
    SparesTransitive(a, b, c);
    ClosuresStayDone(b, c, id, entry, n, today);
    assert ClosureDone(c, id, entry, entry.closures[n], today);
    OneMoreAsked(a, b, c, id, entry, n, closure, isNew, today);
    hide Spares;
  }

  lemma OneMoreAsked(a: Database, b: Database, c: Database, id: Id, entry: CatalogEntry, n: nat, closure: Closure,
                     isNew: bool, today: int)
    requires n < |entry.closures| && AddedAsAsked(a, b, entry, n, today) && HasCode(b, id, entry.row.code)
    requires ClosureTried(b, c, id, entry, n, closure, isNew, today) && Spares(b, c)
    ensures AddedAsAsked(a, c, entry, n + 1, today)
  {
    var day := ClosureDay(today + entry.closures[n].dayOffset, entry.row.operatingDays);
    forall k | k in c.closures && k !in a.closures
      ensures AskedByEntry(c, entry, n + 1, k, c.closures[k].reason, today)
    {
      if isNew && k == (id, day) {
        assert AsksFor(c, entry, entry.closures[n], k, closure.reason, today);
      } else {
        AskedStays(b, c, entry, n, k, b.closures[k].reason, today);
      }
    }
  }

  /** The closures of one catalog entry. */
  method AddClosures(db: CampusServices, id: Id, entry: CatalogEntry, today: int, now: int)
      returns (added: nat, skipped: nat)
    requires db.Valid() && db.clock == now && HasCode(db.Tables(), id, entry.row.code)
    modifies db`closures
    ensures db.Valid()
    ensures ClosuresMade(old(db.Tables()), db.Tables(), id, entry, |entry.closures|, added, skipped, today)
  {
    hide Sound, ClosuresMade;
    added, skipped := 0, 0;
    NoClosureMade(db.Tables(), id, entry, today);
    for n := 0 to |entry.closures|
      invariant db.Valid()
      invariant ClosuresMade(old(db.Tables()), db.Tables(), id, entry, n, added, skipped, today)
    {
      ghost var before := db.Tables();
      var day := ClosureDay(today + entry.closures[n].dayOffset, entry.row.operatingDays);
      var isNew, closure := AddClosure(db, id, day, entry.closures[n].reason, now);
      hide Spares, HasActiveBookingOn, Performed;
      assert ClosureTried(before, db.Tables(), id, entry, n, closure, isNew, today);
      OneMoreClosure(old(db.Tables()), before, db.Tables(), id, entry, n, added, skipped, closure, isNew, today);
      if isNew {
        added := added + 1;
      } else {
        skipped := skipped + 1;
      }
    }
  }

  /** What is done for an entry stays done while other codes are written. */
  lemma DoneStaysDone(a: Database, b: Database, id: Id, entry: CatalogEntry, today: int)
    requires EntryDoneAt(a, id, entry, today) && Spares(a, b) && id in b.resources
    requires b.resources[id] == a.resources[id]
    ensures EntryDoneAt(b, id, entry, today)
  {
    assert HasActiveBooking(a, id) ==> HasActiveBooking(b, id);
    ClosuresStayDone(a, b, id, entry, |entry.closures|, today);
  }

  /** One entry took `a` to `b`: its resource was inserted, rewritten or skipped, and its closures tried. */
  ghost predicate EntryImported(a: Database, b: Database, id: Id, entry: CatalogEntry, outcome: UpsertOutcome,
                                added: nat, skipped: nat, now: int)
  {
    Spares(a, b) && HasCode(b, id, entry.row.code) && EntryDone(b, entry, CampusDay(now))
    && (forall other :: other in b.resources && other != id ==>
          other in a.resources && b.resources[other] == a.resources[other])
    && b.resources[id].createdAt == (if id in a.resources then a.resources[id].createdAt else now)
    && AddedAsAsked(a, b, entry, |entry.closures|, CampusDay(now))
    && (outcome == Skipped <==> Held(a, entry.row.code))
    && |b.resources| == |a.resources| + (if outcome == Inserted then 1 else 0)
    && added + skipped == |entry.closures| && |b.closures| == |a.closures| + added
  }

  /** One entry of the catalog: its resource, then its closures. */
  method ImportEntry(db: CampusServices, entry: CatalogEntry, now: int)
      returns (ghost id: Id, outcome: UpsertOutcome, closuresAdded: nat, closuresSkipped: nat)
    requires db.Valid() && db.clock == now
    modifies db`resources, db`closures
    ensures db.Valid()
    ensures EntryImported(old(db.Tables()), db.Tables(), id, entry, outcome, closuresAdded, closuresSkipped, now)
  {
    hide Sound, Upserted, ClosuresMade, EntryImported;
    ghost var before := db.Tables();
    var written, upsert := UpsertResource(db, entry.row, now);
    id, outcome := written, upsert;
    ghost var upserted := db.Tables();
    closuresAdded, closuresSkipped := AddClosures(db, written, entry, CampusDay(now), now);
    EntryNowImported(before, upserted, db.Tables(), id, entry, outcome, closuresAdded, closuresSkipped, now);
  }

  lemma EntryNowImported(a: Database, b: Database, c: Database, id: Id, entry: CatalogEntry, outcome: UpsertOutcome,
                         added: nat, skipped: nat, now: int)
    requires Sound(a, now) && Upserted(a, b, id, entry.row, outcome, now) && Spares(a, b)
    requires ClosuresMade(b, c, id, entry, |entry.closures|, added, skipped, CampusDay(now))
    ensures EntryImported(a, c, id, entry, outcome, added, skipped, now)
  {
    hide Sound, AskedByEntry, Spares, Held, HasActiveBooking, EntryDone, Upserted;
    SparesTransitive(a, b, c);
    UpsertSkipsHeld(a, b, id, entry.row, outcome, now);
    UpsertWrites(a, b, id, entry.row, outcome, now);
    EntryNowDone(b, c, id, entry, outcome, now);
    hide ClosuresDone;
  }

  /** The upsert skips exactly the codes that bookings hold. */
  lemma UpsertSkipsHeld(a: Database, b: Database, id: Id, row: ImportRow, outcome: UpsertOutcome, now: int)
    requires Sound(a, now) && Upserted(a, b, id, row, outcome, now)
    ensures outcome == Skipped <==> Held(a, row.code)
  {
    SoundParts(a, now);
    hide Sound, HasActiveBooking;
  }

  lemma UpsertWrites(a: Database, b: Database, id: Id, row: ImportRow, outcome: UpsertOutcome, now: int)
    requires Upserted(a, b, id, row, outcome, now)
    ensures HasCode(b, id, row.code) && if outcome == Skipped then HasActiveBooking(b, id)
            else b.resources[id] == row.(createdAt := b.resources[id].createdAt)
    ensures b.closures == a.closures && |b.resources| == |a.resources| + if outcome == Inserted then 1 else 0
    ensures b.resources[id].createdAt == if id in a.resources then a.resources[id].createdAt else now
    ensures forall other :: other in b.resources && other != id ==>
              other in a.resources && b.resources[other] == a.resources[other]
  {
  }

  lemma EntryNowDone(b: Database, c: Database, id: Id, entry: CatalogEntry, outcome: UpsertOutcome, now: int)
    requires HasCode(b, id, entry.row.code) && c.resources == b.resources && c.bookings == b.bookings
    requires if outcome == Skipped then HasActiveBooking(b, id) else Reads(b.resources[id], entry)
    requires ClosuresDone(c, id, entry, |entry.closures|, CampusDay(now))
    ensures EntryDone(c, entry, CampusDay(now))
  {
    assert EntryDoneAt(c, id, entry, CampusDay(now));
  }

  /** What the importer reports. */
  datatype Counts = Counts(inserted: nat, updated: nat, skipped: seq<string>, closuresAdded: nat, closuresSkipped: nat)

  /**
   * The first `n` entries of the catalog took `a` to `b`: each is carried out unless active bookings
   * are in the way, nothing else changes, and the counts say what was done. Skipped are the codes
   * that bookings hold, in the order of the catalog.
   */
  ghost predicate Imported(a: Database, b: Database, catalog: seq<CatalogEntry>, n: nat, counts: Counts, now: int)
    requires n <= |catalog|
  {
    Spares(a, b) && RowsAsListed(a, b, catalog, n, now) && ClosuresAsAsked(a, b, catalog, n, CampusDay(now))
    && (forall m :: 0 <= m < n ==> EntryDone(b, catalog[m], CampusDay(now)))
    && |b.resources| == |a.resources| + counts.inserted
    && counts.inserted + counts.updated + |counts.skipped| == n && counts.skipped == HeldCodes(a, catalog, n)
    && |b.closures| == |a.closures| + counts.closuresAdded
    && counts.closuresAdded + counts.closuresSkipped == ClosureTotal(catalog, n)
  }

  /** `importCatalog` */
  method ImportCatalog(db: CampusServices, catalog: seq<CatalogEntry>, now: int) returns (counts: Counts)
    requires db.Valid() && db.clock <= now && DistinctCodes(catalog)
    modifies db`resources, db`closures, db`clock
    ensures db.Valid() && db.clock == now
    ensures Imported(old(db.Tables()), db.Tables(), catalog, |catalog|, counts, now)
  {
    hide Sound, Imported, EntryImported;
    counts := Counts(0, 0, [], 0, 0);
    db.Tick(now);
    NothingImported(db.Tables(), catalog, now);
    for n := 0 to |catalog|
      invariant db.Valid() && db.clock == now
      invariant Imported(old(db.Tables()), db.Tables(), catalog, n, counts, now)
    {
      ghost var before := db.Tables();
      ghost var id;
      var outcome, added, skipped;
      id, outcome, added, skipped := ImportEntry(db, catalog[n], now);
      OneMoreEntry(old(db.Tables()), before, db.Tables(), catalog, n, counts, id, outcome, added, skipped, now);
      ghost var counted := Counted(counts, outcome, catalog[n].row.code, added, skipped);
      match outcome {
        case Inserted => counts := counts.(inserted := counts.inserted + 1);
        case Updated => counts := counts.(updated := counts.updated + 1);
        case Skipped => counts := counts.(skipped := counts.skipped + [catalog[n].row.code]);
      }
      counts := counts.(closuresAdded := counts.closuresAdded + added,
                        closuresSkipped := counts.closuresSkipped + skipped);
      assert counts == counted;
    }
  }

  lemma NothingImported(db: Database, catalog: seq<CatalogEntry>, now: int)
    ensures Imported(db, db, catalog, 0, Counts(0, 0, [], 0, 0), now)
  {
    hide HasActiveBooking;
  }

  /** One more entry counts under its outcome, with its closures. */
  function Counted(counts: Counts, outcome: UpsertOutcome, code: string, added: nat, skipped: nat): Counts {
    Counts(counts.inserted + if outcome == Inserted then 1 else 0,
           counts.updated + if outcome == Updated then 1 else 0,
           counts.skipped + if outcome == Skipped then [code] else [],
           counts.closuresAdded + added, counts.closuresSkipped + skipped)
  }

  lemma OneMoreEntry(a: Database, b: Database, c: Database, catalog: seq<CatalogEntry>, n: nat, counts: Counts, id: Id,
                     outcome: UpsertOutcome, added: nat, skipped: nat, now: int)
    requires n < |catalog| && DistinctCodes(catalog) && Sound(a, now) && Imported(a, b, catalog, n, counts, now)
    requires EntryImported(b, c, id, catalog[n], outcome, added, skipped, now)
    ensures Imported(a, c, catalog, n + 1, Counted(counts, outcome, catalog[n].row.code, added, skipped), now)
  {
    hide Sound, Held, EntryDone, RowsAsListed, ClosuresAsAsked, AddedAsAsked, Spares, HasCode, DistinctCodes;
    SparesTransitive(a, b, c);
    HeldStays(a, b, catalog[n].row.code, now);
    RowsStillListed(a, b, c, catalog, n, id, now);
    ClosuresStillAsked(a, b, c, catalog, n, CampusDay(now));
    EntriesStayDone(b, c, catalog, n, id, now);
  }

  lemma EntriesStayDone(b: Database, c: Database, catalog: seq<CatalogEntry>, n: nat, id: Id, now: int)
    requires n < |catalog| && DistinctCodes(catalog) && Spares(b, c) && HasCode(c, id, catalog[n].row.code)
    requires forall other :: other in c.resources && other != id ==>
               other in b.resources && c.resources[other] == b.resources[other]
    requires EntryDone(c, catalog[n], CampusDay(now))
             && forall m :: 0 <= m < n ==> EntryDone(b, catalog[m], CampusDay(now))
    ensures forall m :: 0 <= m < n + 1 ==> EntryDone(c, catalog[m], CampusDay(now))
  {
    hide EntryDone, Spares;
    forall m | 0 <= m < n
      ensures EntryDone(c, catalog[m], CampusDay(now))
    {
      OtherEntryStillDone(b, c, id, catalog[n], catalog[m], CampusDay(now));
    }
  }

  lemma OneMoreListed(catalog: seq<CatalogEntry>, n: nat, code: string)
    requires n < |catalog|
    ensures Listed(catalog, n + 1, code) <==> Listed(catalog, n, code) || code == catalog[n].row.code
  {
    if Listed(catalog, n, code) {
      var i :| 0 <= i < n && i < |catalog| && catalog[i].row.code == code;
      assert i < n + 1;
    }
  }

  /** One more entry changes its own resource. */
  lemma RowsStillListed(a: Database, b: Database, c: Database, catalog: seq<CatalogEntry>, n: nat, id: Id, now: int)
    requires n < |catalog| && RowsAsListed(a, b, catalog, n, now) && Spares(a, b) && Spares(b, c)
    requires HasCode(c, id, catalog[n].row.code)
    requires forall other :: other in c.resources && other != id ==>
               other in b.resources && c.resources[other] == b.resources[other]
    requires c.resources[id].createdAt == if id in b.resources then b.resources[id].createdAt else now
    ensures RowsAsListed(a, c, catalog, n + 1, now)
  {
    hide HasActiveBooking;
    forall code
      ensures Listed(catalog, n + 1, code) <==> Listed(catalog, n, code) || code == catalog[n].row.code
    {
      OneMoreListed(catalog, n, code);
    }
    hide Listed;
  }

  /** One more entry adds its own closures. */
  lemma ClosuresStillAsked(a: Database, b: Database, c: Database, catalog: seq<CatalogEntry>, n: nat, today: int)
    requires n < |catalog| && ClosuresAsAsked(a, b, catalog, n, today) && Spares(b, c)
    requires AddedAsAsked(b, c, catalog[n], |catalog[n].closures|, today)
    ensures ClosuresAsAsked(a, c, catalog, n + 1, today)
  {
    hide AskedByEntry, HasActiveBooking;
    forall k | k in c.closures && k !in a.closures
      ensures AskedFor(c, catalog, n + 1, k, c.closures[k].reason, today)
    {
      if k in b.closures {
        var i :| 0 <= i < n && i < |catalog|
          && AskedByEntry(b, catalog[i], |catalog[i].closures|, k, b.closures[k].reason, today);
        AskedStays(b, c, catalog[i], |catalog[i].closures|, k, b.closures[k].reason, today);
      }
    }
  }

  lemma OtherEntryStillDone(before: Database, after: Database, id: Id, entry: CatalogEntry, other: CatalogEntry,
                            today: int)
    requires EntryDone(before, other, today) && Spares(before, after) && HasCode(after, id, entry.row.code)
    requires entry.row.code != other.row.code
    requires forall i :: i in after.resources && i != id ==>
               i in before.resources && after.resources[i] == before.resources[i]
    ensures EntryDone(after, other, today)
  {
    var i :| EntryDoneAt(before, i, other, today);
    assert i != id;
    DoneStaysDone(before, after, i, other, today);
  }

  // ---------------------------------------------------------------- cleaning

  /** The codes of the listed resources that are there. */
  function CodesIn(db: Database, codes: set<string>): set<string> {
    set id | id in db.resources && db.resources[id].code in codes :: db.resources[id].code
  }

  /** `cleanCatalog`: the catalog's resources go, with their closures, unless a booking ever named them. */
  method CleanCatalog(db: CampusServices, codes: set<string>, now: int)
      returns (removed: set<string>, kept: set<string>)
    requires db.Valid() && db.clock <= now
    modifies db`resources, db`closures, db`clock
    ensures db.Valid() && db.clock == now
    ensures Performed(old(db.Tables()), Command.CleanCatalog(codes), now, db.Tables(), [], None)
    ensures removed !! kept && removed + kept == CodesIn(old(db.Tables()), codes) && kept == CodesIn(db.Tables(), codes)
    ensures forall id :: id in old(db.resources) && old(db.resources)[id].code in codes ==>
              (old(db.resources)[id].code in kept <==> HasBooking(old(db.Tables()), id))
  {
    hide Sound, HasBooking;
    ghost var before := db.Tables();
    db.Read(Command.CleanCatalog(codes), now);
    ghost var sound := Cleaned(before, codes);
    SoundParts(before, db.clock);
    removed := set id | id in db.resources && Cleanable(db.Tables(), codes, id) :: db.resources[id].code;
    CleanedSplits(before, codes);
    db.resources, db.closures :=
      map id | id in db.resources && !Cleanable(db.Tables(), codes, id) :: db.resources[id],
      map k | k in db.closures && !Cleanable(db.Tables(), codes, k.0) :: db.closures[k];
    assert db.Tables() == sound;
    kept := set id | id in db.resources && db.resources[id].code in codes :: db.resources[id].code;
  }

  /** With unique codes, what is deleted and what is left share no code. */
  lemma CleanedSplits(db: Database, codes: set<string>)
    requires CodesUnique(db)
    ensures var removed := set id | id in db.resources && Cleanable(db, codes, id) :: db.resources[id].code;
            var kept := CodesIn(Cleaned(db, codes), codes);
            removed !! kept && removed + kept == CodesIn(db, codes)
            && forall id :: id in db.resources && db.resources[id].code in codes ==>
              (db.resources[id].code in kept <==> HasBooking(db, id))
  {
    hide HasBooking;
    var after := Cleaned(db, codes);
    forall id | id in db.resources && db.resources[id].code in codes
      ensures db.resources[id].code in CodesIn(after, codes) <==> HasBooking(db, id)
    {
      assert HasBooking(db, id) ==> id in after.resources;
    }
    assert forall id :: id in after.resources ==> id in db.resources && after.resources[id] == db.resources[id];
  }

  /** Only closures of the resource were added. */
  ghost predicate OnlyClosuresOf(a: Database, b: Database, id: Id) {
    b.resources == a.resources && b.bookings == a.bookings
    && (forall k :: k in a.closures ==> k in b.closures && b.closures[k] == a.closures[k])
    && (forall k :: k in b.closures && k !in a.closures ==> k.0 == id)
  }

  lemma {:induction false} ClosuresOnly(a: Database, db: Database, run: seq<Timed>, id: Id)
    requires OnlyClosuresOf(a, db, id)
    requires forall i :: 0 <= i < |run| ==> run[i].command.ImportClosure? && run[i].command.resourceId == id
    ensures OnlyClosuresOf(a, Replay(db, run), id)
    decreases run
  {
    hide HasActiveBookingOn, HasClosureId;
    if run != [] {
      ClosuresOnly(a, Execute(db, run[0].command, run[0].now).db, run[1..], id);
    }
  }

  /** Deleting the one resource that was added, with the closures that were added for it. */
  lemma CleanUndoesInsert(db: Database, imported: Database, id: Id, row: Resource, codes: set<string>)
    requires id !in db.resources && !HasBooking(db, id) && row.code in codes
    requires forall i :: i in db.resources ==> db.resources[i].code !in codes
    requires forall k :: k in db.closures ==> k.0 in db.resources
    requires OnlyClosuresOf(db.(resources := db.resources[id := row]), imported, id)
    ensures Cleaned(imported, codes) == db
  {
    assert HasBooking(imported, id) <==> HasBooking(db, id);
    hide HasBooking;
    assert forall i :: i in imported.resources ==> (Cleanable(imported, codes, i) <==> i == id);
    assert Cleaned(imported, codes).resources == db.resources;
    assert Cleaned(imported, codes).closures == db.closures;
  }

  /** Cleaning takes back the import of new resource with its closures, as long as nothing booked it. */
  lemma CleanUndoesImport(db: Database, newId: Id, row: ImportRow, now: int, closures: seq<Timed>, codes: set<string>)
    requires Sound(db, now) && newId !in db.resources && row.code in codes
    requires forall id :: id in db.resources ==> db.resources[id].code !in codes
    requires forall k :: k in db.closures ==> k.0 in db.resources
    requires forall i :: 0 <= i < |closures| ==>
               closures[i].command.ImportClosure? && closures[i].command.resourceId == newId
    ensures var imported := Replay(db, [Timed(Command.ImportResource(newId, row), now)] + closures);
            HasCode(imported, newId, row.code) && Cleaned(imported, codes) == db
  {
    hide Execute, Cleaned, HasBooking;
    var added := row.(createdAt := now);
    var inserted := db.(resources := db.resources[newId := added]);
    NewCodeInserts(db, newId, row, now);
    assert ([Timed(Command.ImportResource(newId, row), now)] + closures)[1..] == closures;
    assert Replay(db, [Timed(Command.ImportResource(newId, row), now)] + closures) == Replay(inserted, closures);
    UnbookedWhenNew(db, newId, now);
    hide Replay, Sound;
    ClosuresOnly(inserted, inserted, closures, newId);
    CleanUndoesInsert(db, Replay(inserted, closures), newId, added, codes);
  }

  lemma NewCodeInserts(db: Database, newId: Id, row: ImportRow, now: int)
    requires newId !in db.resources && forall id :: !HasCode(db, id, row.code)
    ensures Execute(db, Command.ImportResource(newId, row), now).db
         == db.(resources := db.resources[newId := row.(createdAt := now)])
  {
  }

  lemma UnbookedWhenNew(db: Database, id: Id, now: int)
    requires Sound(db, now) && id !in db.resources
    ensures !HasBooking(db, id)
  {
    assert forall b :: b in db.bookings ==> NotStranded(db, db.bookings[b], now);
  }
}
