/**
 * The users service's transactions interleaved at their lock points: managed
 * updates lock user rows in id order and then the advisory lock; the admin
 * bootstrap takes the advisory lock and then, perhaps, a user row.
 *
 * Assumed of PostgreSQL at READ COMMITTED: row and advisory locks are held to
 * the end of the transaction, and every read sees what is committed.
 */
module AdminLocks {
  import opened Users
  import opened Wrappers

  datatype Txn =
    /** A managed update that holds the first `held` of the rows it locks in id order. */
    | Locking(actorId: UserId, targetId: UserId, change: Change, rows: seq<UserId>, held: nat)
    /** Both rows held, the actor accepted; the change needs the advisory lock. */
    | NeedsAdvisory(actorId: UserId, targetId: UserId, change: Change)
    | HoldsAdvisory(actorId: UserId, targetId: UserId, change: Change)
    /** Ready to save and commit. */
    | Cleared(actorId: UserId, targetId: UserId, change: Change, advisory: bool)
    /** An admin bootstrap before it holds the advisory lock. */
    | BootWaiting(email: string, hasPassword: bool)
    | BootLooking(email: string, hasPassword: bool)
    | BootCounting(existing: UserId)
    /** It counted no active administrator and wants the row of the account. */
    | BootPromoting(existing: UserId)
    | BootHolding(existing: UserId)

  function RowsHeld(x: Txn): set<UserId> {
    match x
    case Locking(_, _, _, rows, held) => if held <= |rows| then set i | 0 <= i < held :: rows[i] else {}
    case NeedsAdvisory(a, b, _) => {a, b}
    case HoldsAdvisory(a, b, _) => {a, b}
    case Cleared(a, b, _, _) => {a, b}
    case BootHolding(existing) => {existing}
    case _ => {}
  }

  predicate HasAdvisory(x: Txn) {
    x.HoldsAdvisory? || (x.Cleared? && x.advisory) || x.BootLooking? || x.BootCounting? || x.BootPromoting?
      || x.BootHolding?
  }

  /** The row the transaction asks for next. */
  function WantedRow(x: Txn): Option<UserId> {
    match x
    case Locking(_, _, _, rows, held) => if held < |rows| then Some(rows[held]) else None
    case BootPromoting(existing) => Some(existing)
    case _ => None
  }

  predicate WantsAdvisory(x: Txn) {
    x.NeedsAdvisory? || x.BootWaiting?
  }

  datatype State = State(users: map<UserId, User>, txns: map<nat, Txn>)
  {
    /** `t` waits for a lock that `u` holds. */
    predicate WaitsFor(t: nat, u: nat) {
      t in txns && u in txns && t != u
      && ((WantedRow(txns[t]).Some? && WantedRow(txns[t]).value in RowsHeld(txns[u]))
          || (WantsAdvisory(txns[t]) && HasAdvisory(txns[u])))
    }

    ghost predicate Blocked(t: nat) {
      exists u :: WaitsFor(t, u)
    }

    function Put(t: nat, x: Txn): State {
      this.(txns := txns[t := x])
    }

    function Drop(t: nat): State {
      this.(txns := txns - {t})
    }

    function Save(t: nat, id: UserId, user: User): State {
      State(users[id := user], txns - {t})
    }
  }

  datatype Action =
    | BeginManaged(actorId: UserId, targetId: UserId, change: Change)
    | BeginBootstrap(email: string, role: Role, hasPassword: bool, newId: UserId)
    | Register(newId: UserId, email: string)
    /** The next statement of an open transaction; `newId` names a row it may insert. */
    | Proceed(newId: UserId)
    | Rollback

  /** The rows `SELECT ... WHERE id IN (...) ORDER BY id FOR UPDATE` locks. */
  function LockOrder(users: map<UserId, User>, a: UserId, b: UserId): seq<UserId> {
    var low, high := if a < b then a else b, if a < b then b else a;
    (if low in users then [low] else []) + if high in users then [high] else []
  }

  /** Inserts a row unless its email or id is taken. */
  function Insert(s: State, newId: UserId, user: User): State {
    if newId in s.users || Registered(s.users, user.email) then s else s.(users := s.users[newId := user])
  }

  /** One step of transaction `t`; a blocked or unknown transaction does not move. */
  ghost function Step(s: State, t: nat, action: Action): State {
    match action
    case BeginManaged(actorId, targetId, change) =>
      if t in s.txns || actorId == targetId then s
      else s.Put(t, Locking(actorId, targetId, change, LockOrder(s.users, actorId, targetId), 0))
    case BeginBootstrap(email, role, hasPassword, newId) =>
      if role == Admin then if t in s.txns then s else s.Put(t, BootWaiting(email, hasPassword))
      else if role == Staff && hasPassword then Insert(s, newId, User(email, Staff, true))
      else s
    case Register(newId, email) => Insert(s, newId, User(email, Student, true))
    case Rollback => s.Drop(t)
    case Proceed(newId) => if t in s.txns && !s.Blocked(t) then Advance(s, t, s.txns[t], newId) else s
  }

  /** The next statement of a transaction that is not waiting. */
  ghost function Advance(s: State, t: nat, x: Txn, newId: UserId): State {
    match x
    case Locking(actorId, targetId, change, rows, held) =>
      if held < |rows| then s.Put(t, Locking(actorId, targetId, change, rows, held + 1))
      else if targetId !in rows || actorId !in rows || targetId !in s.users || actorId !in s.users then s.Drop(t)
      else if !ActiveAdmin(s.users[actorId]) then s.Drop(t)
      else if RemovesActiveAdmin(s.users[targetId], change) then s.Put(t, NeedsAdvisory(actorId, targetId, change))
      else s.Put(t, Cleared(actorId, targetId, change, false))
    case NeedsAdvisory(actorId, targetId, change) => s.Put(t, HoldsAdvisory(actorId, targetId, change))
    case HoldsAdvisory(actorId, targetId, change) =>
      if |ActiveAdmins(s.users)| <= 1 then s.Drop(t) else s.Put(t, Cleared(actorId, targetId, change, true))
    case Cleared(_, targetId, change, _) =>
      if targetId in s.users then s.Save(t, targetId, Users.Apply(s.users[targetId], change)) else s.Drop(t)
    case BootWaiting(email, hasPassword) => s.Put(t, BootLooking(email, hasPassword))
    case BootLooking(email, hasPassword) =>
      if id: UserId :| id in s.users && s.users[id].email == email then
        if ActiveAdmin(s.users[id]) then s.Drop(t) else s.Put(t, BootCounting(id))
      else if hasPassword then Insert(s.Drop(t), newId, User(email, Admin, true))
      else s.Drop(t)
    case BootCounting(existing) => if |ActiveAdmins(s.users)| > 0 then s.Drop(t) else s.Put(t, BootPromoting(existing))
    case BootPromoting(existing) => s.Put(t, BootHolding(existing))
    case BootHolding(existing) =>
      if existing in s.users then s.Save(t, existing, s.users[existing].(role := Admin, isActive := true))
      else s.Drop(t)
  }

  // -------------------------------------------------------------- invariant

  predicate Increasing(rows: seq<UserId>) {
    forall i, j :: 0 <= i < j < |rows| ==> rows[i] < rows[j]
  }

  /** A managed update whose actor was accepted. */
  predicate Accepted(x: Txn) {
    x.NeedsAdvisory? || x.HoldsAdvisory? || x.Cleared?
  }

  /** What an open transaction relies on. */
  predicate TxnSound(users: map<UserId, User>, x: Txn) {
    match x
    case Locking(actorId, targetId, _, rows, held) =>
      actorId != targetId && held <= |rows| && Increasing(rows)
      && forall i :: 0 <= i < |rows| ==> rows[i] in users && (rows[i] == actorId || rows[i] == targetId)
    case NeedsAdvisory(actorId, targetId, change) =>
      AcceptedSound(users, actorId, targetId) && RemovesActiveAdmin(users[targetId], change)
    case HoldsAdvisory(actorId, targetId, change) =>
      AcceptedSound(users, actorId, targetId) && RemovesActiveAdmin(users[targetId], change)
    case Cleared(actorId, targetId, _, _) => AcceptedSound(users, actorId, targetId)
    case BootWaiting(_, _) => true
    case BootLooking(_, _) => true
    case BootCounting(existing) => existing in users
    case BootPromoting(existing) => existing in users && ActiveAdmins(users) == {}
    case BootHolding(existing) => existing in users && ActiveAdmins(users) == {}
  }

  predicate AcceptedSound(users: map<UserId, User>, actorId: UserId, targetId: UserId) {
    actorId != targetId && actorId in users && targetId in users && ActiveAdmin(users[actorId])
  }

  ghost predicate LocksExclusive(s: State) {
    forall t, u :: t in s.txns && u in s.txns && t != u ==>
      RowsHeld(s.txns[t]) !! RowsHeld(s.txns[u]) && !(HasAdvisory(s.txns[t]) && HasAdvisory(s.txns[u]))
  }

  ghost predicate Inv(s: State) {
    LocksExclusive(s) && forall t :: t in s.txns ==> TxnSound(s.users, s.txns[t])
  }

  // ------------------------------------------------------- preservation

  /** Moving on with locks that nobody else holds. */
  lemma PutKeepsInv(s: State, t: nat, x: Txn)
    requires Inv(s) && TxnSound(s.users, x)
    requires forall u :: u in s.txns && u != t ==>
               RowsHeld(x) !! RowsHeld(s.txns[u]) && !(HasAdvisory(x) && HasAdvisory(s.txns[u]))
    ensures Inv(s.Put(t, x))
  {
  }

  lemma DropKeepsInv(s: State, t: nat)
    requires Inv(s)
    ensures Inv(s.Drop(t))
  {
  }

  /** Writing a row that others neither hold nor count on. */
  lemma FrameKeepsTxnSound(x: Txn, users: map<UserId, User>, id: UserId, user: User)
    requires TxnSound(users, x) && id !in RowsHeld(x)
    requires (x.BootPromoting? || x.BootHolding?) ==> !ActiveAdmin(user)
    ensures TxnSound(users[id := user], x)
  {
  }

  /** An accepted managed update keeps an active administrator in the table. */
  lemma AcceptedHasAdmin(users: map<UserId, User>, x: Txn)
    requires TxnSound(users, x) && Accepted(x)
    ensures x.actorId in ActiveAdmins(users)
  {
  }

  /** While a bootstrap promotes, nobody else can be about to save an administrator. */
  lemma SaveKeepsInv(s: State, t: nat, id: UserId, user: User)
    requires Inv(s) && t in s.txns && id in RowsHeld(s.txns[t]) && (Accepted(s.txns[t]) || HasAdvisory(s.txns[t]))
    ensures Inv(s.Save(t, id, user))
  {
    forall u | u in s.txns && u != t
      ensures TxnSound(s.users[id := user], s.txns[u])
    {
      if (s.txns[u].BootPromoting? || s.txns[u].BootHolding?) && Accepted(s.txns[t]) {
        AcceptedHasAdmin(s.users, s.txns[t]);
      }
      FrameKeepsTxnSound(s.txns[u], s.users, id, user);
    }
    hide TxnSound, RowsHeld, HasAdvisory;
  }

  lemma InsertKeepsInv(s: State, newId: UserId, user: User)
    requires Inv(s)
    requires ActiveAdmin(user) ==> forall u :: u in s.txns ==> !s.txns[u].BootPromoting? && !s.txns[u].BootHolding?
    ensures Inv(Insert(s, newId, user))
  {
  }

  lemma LockOrderSound(users: map<UserId, User>, a: UserId, b: UserId)
    requires a != b
    ensures Increasing(LockOrder(users, a, b))
    ensures forall id :: id in LockOrder(users, a, b) <==> id in users && (id == a || id == b)
  {
  }

  /** Taking the next row: nobody holds it. */
  lemma NextRowKeepsInv(s: State, t: nat)
    requires Inv(s) && t in s.txns && s.txns[t].Locking? && !s.Blocked(t) && s.txns[t].held < |s.txns[t].rows|
    ensures Inv(s.Put(t, s.txns[t].(held := s.txns[t].held + 1)))
  {
    var x := s.txns[t];
    assert TxnSound(s.users, x);
    var next := x.(held := x.held + 1);
    assert RowsHeld(next) == RowsHeld(x) + {x.rows[x.held]};
    forall u | u in s.txns && u != t
      ensures RowsHeld(next) !! RowsHeld(s.txns[u])
    {
      assert !s.WaitsFor(t, u);
    }
    PutKeepsInv(s, t, next);
  }

  lemma BothRowsHeld(x: Txn)
    requires x.Locking? && x.held == |x.rows| && x.targetId in x.rows && x.actorId in x.rows
    requires forall i :: 0 <= i < |x.rows| ==> x.rows[i] == x.actorId || x.rows[i] == x.targetId
    ensures RowsHeld(x) == {x.actorId, x.targetId}
  {
  }

  lemma LockingKeepsInv(s: State, t: nat)
    requires Inv(s) && t in s.txns && s.txns[t].Locking? && !s.Blocked(t)
    ensures Inv(Advance(s, t, s.txns[t], 0))
  {
    hide RemovesActiveAdmin, Increasing;
    var x := s.txns[t];
    assert TxnSound(s.users, x);
    if x.held < |x.rows| {
      NextRowKeepsInv(s, t);
    } else {
      DropKeepsInv(s, t);
      if x.targetId in x.rows && x.actorId in x.rows && ActiveAdmin(s.users[x.actorId]) {
        BothRowsHeld(x);
        if RemovesActiveAdmin(s.users[x.targetId], x.change) {
          PutKeepsInv(s, t, NeedsAdvisory(x.actorId, x.targetId, x.change));
        } else {
          PutKeepsInv(s, t, Cleared(x.actorId, x.targetId, x.change, false));
        }
      }
    }
  }

  lemma EmptyCount(users: map<UserId, User>)
    ensures |ActiveAdmins(users)| > 0 <==> ActiveAdmins(users) != {}
  {
  }

  lemma AdvanceKeepsInv(s: State, t: nat, newId: UserId)
    requires Inv(s) && t in s.txns && !s.Blocked(t) && !s.txns[t].Locking?
    ensures Inv(Advance(s, t, s.txns[t], newId))
  {
    DropKeepsInv(s, t);
    if Accepted(s.txns[t]) {
      AcceptedKeepsInv(s, t);
    } else {
      BootKeepsInv(s, t, newId);
    }
  }

  lemma AcceptedKeepsInv(s: State, t: nat)
    requires Inv(s) && t in s.txns && !s.Blocked(t) && Accepted(s.txns[t])
    ensures Inv(Advance(s, t, s.txns[t], 0))
  {
    var x := s.txns[t];
    assert TxnSound(s.users, x);
    assert forall u :: u in s.txns && u != t ==> !s.WaitsFor(t, u);
    hide RemovesActiveAdmin;
    DropKeepsInv(s, t);
    match x
    case NeedsAdvisory(a, b, c) => PutKeepsInv(s, t, HoldsAdvisory(a, b, c));
    case HoldsAdvisory(a, b, c) => PutKeepsInv(s, t, Cleared(a, b, c, true));
    case Cleared(a, b, c, _) => SaveKeepsInv(s, t, b, Users.Apply(s.users[b], c));
  }

  lemma BootKeepsInv(s: State, t: nat, newId: UserId)
    requires Inv(s) && t in s.txns && !s.Blocked(t) && !s.txns[t].Locking? && !Accepted(s.txns[t])
    ensures Inv(Advance(s, t, s.txns[t], newId))
  {
    var x := s.txns[t];
    assert TxnSound(s.users, x);
    assert forall u :: u in s.txns && u != t ==> !s.WaitsFor(t, u);
    hide RemovesActiveAdmin;
    DropKeepsInv(s, t);
    match x
    case BootWaiting(email, hasPassword) => PutKeepsInv(s, t, BootLooking(email, hasPassword));
    case BootLooking(email, hasPassword) =>
      InsertKeepsInv(s.Drop(t), newId, User(email, Admin, true));
      var after := Advance(s, t, x, newId);
      if id: UserId :| id in s.users && s.users[id].email == email && after == s.Put(t, BootCounting(id)) {
        PutKeepsInv(s, t, BootCounting(id));
      }
    case BootCounting(existing) =>
      EmptyCount(s.users);
      if ActiveAdmins(s.users) == {} {
        PutKeepsInv(s, t, BootPromoting(existing));
      }
    case BootPromoting(existing) => PutKeepsInv(s, t, BootHolding(existing));
    case BootHolding(existing) => SaveKeepsInv(s, t, existing, s.users[existing].(role := Admin, isActive := true));
  }

  lemma BeginKeepsInv(s: State, t: nat, actorId: UserId, targetId: UserId, change: Change)
    requires Inv(s) && t !in s.txns && actorId != targetId
    ensures Inv(s.Put(t, Locking(actorId, targetId, change, LockOrder(s.users, actorId, targetId), 0)))
  {
    LockOrderSound(s.users, actorId, targetId);
    var rows := LockOrder(s.users, actorId, targetId);
    NothingHeldYet(s.users, Locking(actorId, targetId, change, rows, 0));
    hide LockOrder, Increasing, TxnSound, RowsHeld;
    PutKeepsInv(s, t, Locking(actorId, targetId, change, rows, 0));
  }

  lemma NothingHeldYet(users: map<UserId, User>, x: Txn)
    requires x.Locking? && x.held == 0 && x.actorId != x.targetId && Increasing(x.rows)
    requires forall id :: id in x.rows ==> id in users && (id == x.actorId || id == x.targetId)
    ensures TxnSound(users, x) && RowsHeld(x) == {} && !HasAdvisory(x)
  {
  }

  lemma StepKeepsInv(s: State, t: nat, action: Action)
    requires Inv(s)
    ensures Inv(Step(s, t, action))
  {
    hide Inv, Insert, Advance;
    match action
    case BeginManaged(actorId, targetId, change) =>
      if t !in s.txns && actorId != targetId {
        BeginKeepsInv(s, t, actorId, targetId, change);
      }
    case BeginBootstrap(email, role, hasPassword, newId) =>
      PutWaiting(s, t, email, hasPassword);
      InsertKeepsInv(s, newId, User(email, Staff, true));
    case Register(newId, email) => InsertKeepsInv(s, newId, User(email, Student, true));
    case Rollback => DropKeepsInv(s, t);
    case Proceed(newId) =>
      if t in s.txns && !s.Blocked(t) {
        if s.txns[t].Locking? {
          LockingKeepsInv(s, t);
          LockingIgnoresId(s, t, newId);
        } else {
          AdvanceKeepsInv(s, t, newId);
        }
      }
  }

  lemma PutWaiting(s: State, t: nat, email: string, hasPassword: bool)
    requires Inv(s)
    ensures Inv(s.Put(t, BootWaiting(email, hasPassword)))
  {
    PutKeepsInv(s, t, BootWaiting(email, hasPassword));
  }

  lemma LockingIgnoresId(s: State, t: nat, newId: UserId)
    requires t in s.txns && s.txns[t].Locking?
    ensures Advance(s, t, s.txns[t], newId) == Advance(s, t, s.txns[t], 0)
  {
  }
}
