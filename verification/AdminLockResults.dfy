/** What every schedule of user transactions guarantees: an administrator stays, and nobody deadlocks. */
module AdminLockResults {
  import opened Users
  import opened AdminLocks

  datatype Move = Move(txn: nat, action: Action)

  ghost function Exec(s: State, schedule: seq<Move>): State
    decreases |schedule|
  {
    if schedule == [] then s else Exec(Step(s, schedule[0].txn, schedule[0].action), schedule[1..])
  }

  lemma {:induction false} EveryScheduleKeepsInv(s: State, schedule: seq<Move>)
    requires Inv(s)
    ensures Inv(Exec(s, schedule))
    decreases |schedule|
  {
    if schedule != [] {
      StepKeepsInv(s, schedule[0].txn, schedule[0].action);
      EveryScheduleKeepsInv(Step(s, schedule[0].txn, schedule[0].action), schedule[1..]);
    }
  }

  // -------------------------------------------- the last active administrator

  lemma StepKeepsAnAdmin(s: State, t: nat, action: Action)
    requires Inv(s) && ActiveAdmins(s.users) != {}
    ensures ActiveAdmins(Step(s, t, action).users) != {}
  {
    var after := Step(s, t, action);
    var admin :| admin in ActiveAdmins(s.users);
    if action.Proceed? && t in s.txns && (s.txns[t].Cleared? || s.txns[t].BootHolding?) {
      var x := s.txns[t];
      assert TxnSound(s.users, x);
      if x.Cleared? {
        assert after.users != s.users ==> x.actorId in ActiveAdmins(after.users);
      }
    } else {
      InsertsOnly(s, t, action);
      assert admin in ActiveAdmins(after.users);
    }
    assert admin in ActiveAdmins(s.users);
    assert after.users == s.users || ActiveAdmins(after.users) != {};
  }

  /** Only the two saves overwrite a row. */
  lemma InsertsOnly(s: State, t: nat, action: Action)
    requires !(action.Proceed? && t in s.txns && (s.txns[t].Cleared? || s.txns[t].BootHolding?))
    ensures forall id :: id in s.users ==> id in Step(s, t, action).users && Step(s, t, action).users[id] == s.users[id]
  {
  }

  /** Once there is an active administrator there always is one, whatever interleaves. */
  lemma {:induction false} AnAdminStays(s: State, schedule: seq<Move>)
    requires Inv(s) && ActiveAdmins(s.users) != {}
    ensures ActiveAdmins(Exec(s, schedule).users) != {}
    decreases |schedule|
  {
    if schedule != [] {
      StepKeepsInv(s, schedule[0].txn, schedule[0].action);
      StepKeepsAnAdmin(s, schedule[0].txn, schedule[0].action);
      AnAdminStays(Step(s, schedule[0].txn, schedule[0].action), schedule[1..]);
    }
  }

  /** When the last-administrator count runs it finds the locked actor and the locked target. */
  lemma LastActiveAdminNeverRaised(s: State, schedule: seq<Move>, t: nat)
    requires Inv(s)
    requires t in Exec(s, schedule).txns && Exec(s, schedule).txns[t].HoldsAdvisory?
    ensures |ActiveAdmins(Exec(s, schedule).users)| >= 2
  {
    EveryScheduleKeepsInv(s, schedule);
    var end := Exec(s, schedule);
    var x := end.txns[t];
    assert TxnSound(end.users, x);
    TwoActiveAdmins(end.users, x.actorId, x.targetId);
  }

  // ------------------------------------------------------------ no deadlock

  predicate Wants(x: Txn) {
    WantedRow(x).Some? || WantsAdvisory(x)
  }

  /** Where a waiting transaction stands in the order in which locks are taken. */
  function Rank(x: Txn): (nat, nat) {
    match x
    case BootWaiting(_, _) => (0, 0)
    case BootPromoting(_) => (1, 0)
    case Locking(_, _, _, rows, held) => (2, if held < |rows| then rows[held] else 0)
    case _ => (3, 0)
  }

  predicate Below(a: (nat, nat), b: (nat, nat)) {
    a.0 < b.0 || (a.0 == b.0 && a.1 < b.1)
  }

  /** Waiting for somebody who waits goes up in rank. */
  lemma WaitingGoesUp(s: State, t: nat, u: nat)
    requires Inv(s) && s.WaitsFor(t, u) && Wants(s.txns[u])
    ensures Wants(s.txns[t]) && Below(Rank(s.txns[t]), Rank(s.txns[u]))
  {
  }

  ghost predicate WaitPath(s: State, path: seq<nat>) {
    forall i, j :: 0 <= i < j < |path| && j == i + 1 ==> s.WaitsFor(path[i], path[j])
  }

  lemma {:induction false} PathGoesUp(s: State, path: seq<nat>)
    requires Inv(s) && |path| >= 2 && WaitPath(s, path)
    requires path[|path| - 1] in s.txns && Wants(s.txns[path[|path| - 1]])
    ensures path[0] in s.txns && Below(Rank(s.txns[path[0]]), Rank(s.txns[path[|path| - 1]]))
  {
    var n := |path|;
    assert s.WaitsFor(path[n - 2], path[n - 1]);
    WaitingGoesUp(s, path[n - 2], path[n - 1]);
    if n > 2 {
      PathGoesUp(s, path[..n - 1]);
    }
  }

  /** No schedule reaches a cycle of transactions that wait for each other. */
  lemma DeadlockFree(s: State, schedule: seq<Move>, cycle: seq<nat>)
    requires Inv(s) && |cycle| >= 2 && cycle[0] == cycle[|cycle| - 1]
    ensures !WaitPath(Exec(s, schedule), cycle)
  {
    EveryScheduleKeepsInv(s, schedule);
    var end := Exec(s, schedule);
    if WaitPath(end, cycle) {
      assert end.WaitsFor(cycle[0], cycle[1]);
      PathGoesUp(end, cycle);
    }
  }

  /** Among open transactions one can always move. */
  lemma {:induction false} SomeoneMoves(s: State, t: nat, above: set<nat>) returns (free: nat)
    requires Inv(s) && t in s.txns
    requires forall v :: v in s.txns && Wants(s.txns[v]) && Below(Rank(s.txns[t]), Rank(s.txns[v])) ==> v in above
    ensures free in s.txns && !s.Blocked(free)
    decreases |above|
  {
    free := t;
    if s.Blocked(t) {
      var u :| s.WaitsFor(t, u);
      free := u;
      if Wants(s.txns[u]) {
        WaitingGoesUp(s, t, u);
        assert u in above;
        free := SomeoneMoves(s, u, above - {u});
      }
    }
  }

  // --------------------------------------------------------------- progress

  /** Statements a transaction has left at most. */
  function StepsLeft(x: Txn): nat {
    match x
    case Locking(_, _, _, rows, held) => if held <= |rows| then |rows| - held + 4 else 4
    case NeedsAdvisory(_, _, _) => 3
    case HoldsAdvisory(_, _, _) => 2
    case Cleared(_, _, _, _) => 1
    case BootWaiting(_, _) => 5
    case BootLooking(_, _) => 4
    case BootCounting(_) => 3
    case BootPromoting(_) => 2
    case BootHolding(_) => 1
  }

  ghost function Work(txns: map<nat, Txn>): nat
    decreases |txns|
  {
    if txns == map[] then 0
    else
      var t :| t in txns;
      StepsLeft(txns[t]) + Work(txns - {t})
  }

  lemma {:induction false} WorkOf(txns: map<nat, Txn>, t: nat)
    requires t in txns
    ensures Work(txns) == StepsLeft(txns[t]) + Work(txns - {t})
    decreases |txns|
  {
    var u :| u in txns && Work(txns) == StepsLeft(txns[u]) + Work(txns - {u});
    if u != t {
      WorkOf(txns - {u}, t);
      WorkOf(txns - {t}, u);
      assert txns - {u} - {t} == txns - {t} - {u};
    }
  }

  /** Only its own transaction is moved on by a statement. */
  lemma AdvanceShrinks(s: State, t: nat, x: Txn, newId: UserId)
    requires t in s.txns && s.txns[t] == x
    ensures var after := Advance(s, t, x, newId).txns;
            after == s.txns - {t}
              || (t in after && after == s.txns[t := after[t]] && StepsLeft(after[t]) < StepsLeft(x))
  {
    hide RemovesActiveAdmin, ActiveAdmin, ActiveAdmins, Registered;
  }

  /** An unblocked transaction moves: it closes, or it has fewer statements left. */
  lemma ProceedShrinks(s: State, t: nat, newId: UserId)
    requires t in s.txns && !s.Blocked(t)
    ensures var after := Step(s, t, Proceed(newId)).txns;
            after == s.txns - {t}
              || (t in after && after == s.txns[t := after[t]] && StepsLeft(after[t]) < StepsLeft(s.txns[t]))
  {
    AdvanceShrinks(s, t, s.txns[t], newId);
    hide Advance, StepsLeft;
  }

  lemma ProceedDoesWork(s: State, t: nat, newId: UserId)
    requires t in s.txns && !s.Blocked(t)
    ensures Work(Step(s, t, Proceed(newId)).txns) < Work(s.txns)
  {
    hide Step, StepsLeft;
    var after := Step(s, t, Proceed(newId));
    ProceedShrinks(s, t, newId);
    WorkOf(s.txns, t);
    assert after.txns - {t} == s.txns - {t};
    if t in after.txns {
      WorkOf(after.txns, t);
    } else {
      assert after.txns == s.txns - {t};
      StepsPositive(s.txns[t]);
    }
  }

  lemma StepsPositive(x: Txn)
    ensures StepsLeft(x) > 0
  {
  }

  /** However many transactions are open, letting unblocked ones go on closes all of them. */
  lemma {:induction false} AllTransactionsFinish(s: State) returns (schedule: seq<Move>)
    requires Inv(s)
    ensures Exec(s, schedule).txns == map[]
    ensures forall i :: 0 <= i < |schedule| ==> schedule[i].action.Proceed?
    ensures |schedule| <= Work(s.txns)
    decreases Work(s.txns)
  {
    hide Step, StepsLeft;
    if s.txns == map[] {
      return [];
    }
    var t :| t in s.txns;
    var free := SomeoneMoves(s, t, s.txns.Keys);
    ProceedDoesWork(s, free, 0);
    StepKeepsInv(s, free, Proceed(0));
    var rest := AllTransactionsFinish(Step(s, free, Proceed(0)));
    schedule := [Move(free, Proceed(0))] + rest;
    assert schedule[1..] == rest;
  }

  // -------------------------------------------------------- serial execution

  /** Transaction `t` going on `n` times with nothing in between, `newId` naming the row it may insert. */
  ghost function Proceeds(s: State, t: nat, newId: UserId, n: nat): State
    decreases n
  {
    if n == 0 then s else Proceeds(Step(s, t, Proceed(newId)), t, newId, n - 1)
  }

  lemma {:induction false} IdleProceeds(s: State, t: nat, newId: UserId, n: nat)
    requires t !in s.txns
    ensures Proceeds(s, t, newId, n) == s
    decreases n
  {
    if n > 0 {
      IdleProceeds(s, t, newId, n - 1);
    }
  }

  /** What the table becomes once a managed update runs to its end undisturbed. */
  function Outcome(users: map<UserId, User>, x: Txn): map<UserId, User> {
    match x
    case Locking(a, b, change, _, _) => Managed(users, a, b, change)
    case NeedsAdvisory(_, b, change) => if |ActiveAdmins(users)| > 1 then Saved(users, b, change) else users
    case HoldsAdvisory(_, b, change) => if |ActiveAdmins(users)| > 1 then Saved(users, b, change) else users
    case Cleared(_, b, change, _) => Saved(users, b, change)
    case _ => users
  }

  function Saved(users: map<UserId, User>, id: UserId, change: Change): map<UserId, User> {
    if id in users then users[id := Users.Apply(users[id], change)] else users
  }

  predicate ManagedSound(users: map<UserId, User>, x: Txn) {
    (x.Locking? || Accepted(x)) && TxnSound(users, x)
      && (x.Locking? ==> x.rows == LockOrder(users, x.actorId, x.targetId))
  }

  /** One undisturbed step ends the transaction with its outcome, or keeps the outcome and has less left to do. */
  lemma ManagedStep(s: State, t: nat)
    requires t in s.txns && s.txns == map[t := s.txns[t]] && ManagedSound(s.users, s.txns[t])
    ensures StepsOn(s, t, Step(s, t, Proceed(0)))
  {
    var x := s.txns[t];
    assert !s.Blocked(t);
    assert Step(s, t, Proceed(0)) == Advance(s, t, x, 0);
    if x.Locking? {
      LockingStep(s, t);
    } else {
      AcceptedStep(s, t);
    }
    hide Step, Advance, StepsOn;
  }

  ghost predicate StepsOn(s: State, t: nat, after: State)
    requires t in s.txns
  {
    after == State(Outcome(s.users, s.txns[t]), map[])
    || (t in after.txns && after == State(s.users, map[t := after.txns[t]]) && ManagedSound(s.users, after.txns[t])
        && Outcome(s.users, after.txns[t]) == Outcome(s.users, s.txns[t])
        && StepsLeft(after.txns[t]) < StepsLeft(s.txns[t]))
  }

  lemma LockingStep(s: State, t: nat)
    requires t in s.txns && s.txns == map[t := s.txns[t]] && s.txns[t].Locking? && ManagedSound(s.users, s.txns[t])
    ensures StepsOn(s, t, Advance(s, t, s.txns[t], 0))
  {
    var x := s.txns[t];
    assert s.txns - {t} == map[];
    LockOrderSound(s.users, x.actorId, x.targetId);
    hide Increasing, LockOrder, RemovesActiveAdmin, ActiveAdmins, ActiveAdmin;
  }

  lemma AcceptedStep(s: State, t: nat)
    requires t in s.txns && s.txns == map[t := s.txns[t]] && Accepted(s.txns[t]) && ManagedSound(s.users, s.txns[t])
    ensures StepsOn(s, t, Advance(s, t, s.txns[t], 0))
  {
    assert s.txns - {t} == map[];
    hide LockOrder, RemovesActiveAdmin, ActiveAdmins, ActiveAdmin;
  }

  lemma {:induction false} ManagedFinishes(s: State, t: nat, n: nat)
    requires t in s.txns && s.txns == map[t := s.txns[t]] && ManagedSound(s.users, s.txns[t])
             && n >= StepsLeft(s.txns[t])
    ensures Proceeds(s, t, 0, n) == State(Outcome(s.users, s.txns[t]), map[])
    decreases n
  {
    hide Outcome, ManagedSound, Step;
    StepsPositive(s.txns[t]);
    ManagedStep(s, t);
    var after := Step(s, t, Proceed(0));
    if t in after.txns {
      ManagedFinishes(after, t, n - 1);
    } else {
      IdleProceeds(after, t, 0, n - 1);
    }
  }

  /** Uninterrupted, the steps of a managed update have exactly the effect of the service method. */
  lemma ManagedAloneIsService(users: map<UserId, User>, t: nat, actorId: UserId, targetId: UserId, change: Change)
    ensures Proceeds(Step(State(users, map[]), t, BeginManaged(actorId, targetId, change)), t, 0, 6).users
         == Managed(users, actorId, targetId, change)
  {
    var s := State(users, map[]);
    if actorId == targetId {
      IdleProceeds(s, t, 0, 6);
    } else {
      LockOrderSound(users, actorId, targetId);
      var x := Locking(actorId, targetId, change, LockOrder(users, actorId, targetId), 0);
      assert s.Put(t, x).txns == map[t := x];
      ManagedFinishes(s.Put(t, x), t, 6);
    }
  }

  /** The table after an undisturbed managed update, in the end: one column of one row, or nothing. */
  lemma ManagedAloneWrites(users: map<UserId, User>, t: nat, actorId: UserId, targetId: UserId, change: Change)
    ensures Proceeds(Step(State(users, map[]), t, BeginManaged(actorId, targetId, change)), t, 0, 6).users
         == if !MayManage(users, actorId, targetId) then users
            else
              var target := users[targetId];
              match change
              case SetRole(role) => users[targetId := User(target.email, role, target.isActive)]
              case SetActive(isActive) => users[targetId := User(target.email, target.role, isActive)]
  {
    ManagedAloneIsService(users, t, actorId, targetId, change);
    hide Proceeds, Step;
    if MayManage(users, actorId, targetId) && RemovesActiveAdmin(users[targetId], change) {
      TwoActiveAdmins(users, actorId, targetId);
    }
  }

  /** Somebody in the table is an active administrator. */
  predicate HasActiveAdmin(users: map<UserId, User>) {
    exists id :: id in users && users[id].role == Admin && users[id].isActive
  }

  lemma NoAdminsExactly(users: map<UserId, User>)
    ensures |ActiveAdmins(users)| > 0 <==> HasActiveAdmin(users)
  {
    if id :| id in users && users[id].role == Admin && users[id].isActive {
      assert id in ActiveAdmins(users);
    }
    if id :| id in ActiveAdmins(users) {
    } else {
      assert ActiveAdmins(users) == {};
    }
  }

  lemma AloneGoesOn(users: map<UserId, User>, t: nat, newId: UserId, x: Txn, n: nat)
    requires n > 0
    ensures Proceeds(State(users, map[t := x]), t, newId, n)
         == Proceeds(Advance(State(users, map[t := x]), t, x, newId), t, newId, n - 1)
  {
    assert !State(users, map[t := x]).Blocked(t);
    hide Advance;
  }

  lemma EndedStays(users: map<UserId, User>, t: nat, newId: UserId, n: nat)
    ensures Proceeds(State(users, map[]), t, newId, n) == State(users, map[])
  {
    IdleProceeds(State(users, map[]), t, newId, n);
  }

  /** The promotion of an account that the bootstrap found inactive or in another role. */
  lemma PromotionAlone(users: map<UserId, User>, t: nat, newId: UserId, existing: UserId)
    requires existing in users
    ensures Proceeds(State(users, map[t := BootCounting(existing)]), t, newId, 3)
         == State(if HasActiveAdmin(users) then users else users[existing := User(users[existing].email, Admin, true)],
                  map[])
  {
    hide Proceeds, ActiveAdmins, HasActiveAdmin;
    NoAdminsExactly(users);
    AloneGoesOn(users, t, newId, BootCounting(existing), 3);
    assert map[t := BootCounting(existing)] - {t} == map[];
    if HasActiveAdmin(users) {
      EndedStays(users, t, newId, 2);
    } else {
      assert map[t := BootCounting(existing)][t := BootPromoting(existing)] == map[t := BootPromoting(existing)];
      AloneGoesOn(users, t, newId, BootPromoting(existing), 2);
      assert map[t := BootPromoting(existing)][t := BootHolding(existing)] == map[t := BootHolding(existing)];
      AloneGoesOn(users, t, newId, BootHolding(existing), 1);
      assert map[t := BootHolding(existing)] - {t} == map[];
      EndedStays(users[existing := User(users[existing].email, Admin, true)], t, newId, 0);
    }
  }

  /**
   * Undisturbed, the admin bootstrap inserts a missing account that has a
   * password, promotes an existing one when nobody is an active administrator,
   * and otherwise changes nothing.
   */
  lemma BootstrapAlone(users: map<UserId, User>, t: nat, email: string, hasPassword: bool, newId: UserId)
    requires newId !in users
    requires forall i, j :: i in users && j in users && users[i].email == users[j].email ==> i == j
    ensures var after := Proceeds(Step(State(users, map[]), t, BeginBootstrap(email, Admin, hasPassword, newId)), t,
                                  newId,
                                  5).users;
            ((forall id :: id in users ==> users[id].email != email) ==>
               after == if hasPassword then users[newId := User(email, Admin, true)] else users)
            && (forall id :: id in users && users[id].email == email ==>
                  after == if HasActiveAdmin(users) then users else users[id := User(email, Admin, true)])
  {
    hide Proceeds, HasActiveAdmin;
    var waiting, looking := BootWaiting(email, hasPassword), BootLooking(email, hasPassword);
    assert Step(State(users, map[]), t, BeginBootstrap(email, Admin, hasPassword, newId))
           == State(users, map[t := waiting]);
    AloneGoesOn(users, t, newId, waiting, 5);
    assert map[t := waiting][t := looking] == map[t := looking];
    AloneGoesOn(users, t, newId, looking, 4);
    assert map[t := looking] - {t} == map[];
    if id: UserId :| id in users && users[id].email == email {
      if ActiveAdmin(users[id]) {
        AdminIsThere(users, id);
        EndedStays(users, t, newId, 3);
      } else {
        assert map[t := looking][t := BootCounting(id)] == map[t := BootCounting(id)];
        PromotionAlone(users, t, newId, id);
      }
    } else {
      EndedStays(if hasPassword then users[newId := User(email, Admin, true)] else users, t, newId, 3);
    }
  }

  lemma AdminIsThere(users: map<UserId, User>, id: UserId)
    requires id in users && ActiveAdmin(users[id])
    ensures HasActiveAdmin(users)
  {
  }

  /**
   * A registration inserts an active student, a staff bootstrap with a password an active staff
   * account, if both id and email are new.
   */
  lemma InsertionsWrite(s: State, t: nat, email: string, hasPassword: bool, newId: UserId)
    ensures var unknown := newId !in s.users && forall id :: id in s.users ==> s.users[id].email != email;
            Step(s, t, Register(newId, email)).users
            == (if unknown then s.users[newId := User(email, Student, true)] else s.users)
            && Step(s, t, BeginBootstrap(email, Staff, hasPassword, newId)).users
            == if unknown && hasPassword then s.users[newId := User(email, Staff, true)] else s.users
  {
  }
}
