/** User rows and the transactions of the users service, each run without interference. */
module Users {
  import opened Wrappers

  type UserId = nat

  datatype Role = Student | Staff | Admin

  datatype User = User(email: string, role: Role, isActive: bool)

  predicate ActiveAdmin(u: User) {
    u.role == Admin && u.isActive
  }

  function ActiveAdmins(users: map<UserId, User>): set<UserId> {
    set id | id in users && ActiveAdmin(users[id])
  }

  /** What an administrator changes about another user. */
  datatype Change = SetRole(role: Role) | SetActive(isActive: bool)

  /** `Object.assign(target, updates)` */
  function Apply(target: User, change: Change): User {
    match change
    case SetRole(role) => target.(role := role)
    case SetActive(isActive) => target.(isActive := isActive)
  }

  /** The flag the change callbacks of `updateRole` and `updateStatus` compute. */
  predicate RemovesActiveAdmin(target: User, change: Change) {
    match change
    case SetRole(role) => target.role == Admin && role != Admin && target.isActive
    case SetActive(isActive) => target.role == Admin && target.isActive && !isActive
  }

  /** The flag says that the target stops being an active administrator. */
  lemma RemovalFlagExact(target: User, change: Change)
    ensures RemovesActiveAdmin(target, change) <==> ActiveAdmin(target) && !ActiveAdmin(Apply(target, change))
  {
  }

  lemma TwoActiveAdmins(users: map<UserId, User>, a: UserId, b: UserId)
    requires a != b && a in ActiveAdmins(users) && b in ActiveAdmins(users)
    ensures |ActiveAdmins(users)| >= 2
  {
    assert {a, b} <= ActiveAdmins(users);
    SubsetSize({a, b}, ActiveAdmins(users));
  }

  lemma {:induction false} SubsetSize(a: set<UserId>, b: set<UserId>)
    requires a <= b
    ensures |a| <= |b|
  {
    if a != {} {
      var x :| x in a;
      SubsetSize(a - {x}, b - {x});
    }
  }

  /** The users table after `updateManagedUser`, whether it succeeds or throws. */
  function Managed(users: map<UserId, User>, actorId: UserId, targetId: UserId, change: Change): map<UserId, User> {
    if actorId == targetId || targetId !in users || actorId !in users || !ActiveAdmin(users[actorId]) then users
    else if RemovesActiveAdmin(users[targetId], change) && |ActiveAdmins(users)| <= 1 then users
    else users[targetId := Apply(users[targetId], change)]
  }

  datatype ManagementError = SelfManagementNotAllowed | UserNotFound | LastActiveAdmin

  datatype BootstrapOutcome = Created | Promoted | AlreadyProvisioned | AdminExists | Unchanged | AccountMissing

  predicate Registered(users: map<UserId, User>, email: string) {
    exists id :: id in users && users[id].email == email
  }

  /** An active administrator acts on somebody else who has an account. */
  predicate MayManage(users: map<UserId, User>, actorId: UserId, targetId: UserId) {
    actorId != targetId && targetId in users && actorId in users
    && users[actorId].role == Admin && users[actorId].isActive
  }

  class UsersService {
    var users: map<UserId, User>
    /** Deactivations published so far. */
    var deactivated: seq<UserId>

    /** IDX_users_email */
    ghost predicate Valid()
      reads this
    {
      forall i, j :: i in users && j in users && users[i].email == users[j].email ==> i == j
    }

    constructor ()
      ensures Valid() && users == map[] && deactivated == []
    {
      users, deactivated := map[], [];
    }

    /** `updateManagedUser` */
    method UpdateManagedUser(actorId: UserId, targetId: UserId, change: Change)
        returns (r: Result<User, ManagementError>)
      requires Valid()
      modifies this`users
      ensures Valid()
      ensures r == Err(UserNotFound) <==> actorId != targetId && targetId !in old(users)
      ensures r == Err(SelfManagementNotAllowed) <==>
                actorId == targetId
                || (targetId in old(users) && !(actorId in old(users) && ActiveAdmin(old(users)[actorId])))
      ensures r != Err(LastActiveAdmin)
      ensures r.Ok? <==> MayManage(old(users), actorId, targetId)
      ensures users == Managed(old(users), actorId, targetId, change)
      ensures r.Err? ==> users == old(users)
      ensures r.Ok? ==>
                targetId in old(users) && users == old(users)[targetId := Apply(old(users)[targetId], change)]
                && r.value == users[targetId]
      ensures old(ActiveAdmins(users)) != {} ==> ActiveAdmins(users) != {}
    {
      if actorId == targetId {
        return Err(SelfManagementNotAllowed);
      }
      if targetId !in users {
        return Err(UserNotFound);
      }
      if actorId !in users || !users[actorId].isActive || users[actorId].role != Admin {
        return Err(SelfManagementNotAllowed);
      }
      var target := users[targetId];
      if RemovesActiveAdmin(target, change) {
        TwoActiveAdmins(users, actorId, targetId);
        var activeAdmins := |ActiveAdmins(users)|;
        if activeAdmins <= 1 {
          return Err(LastActiveAdmin);
        }
      }
      users := users[targetId := Apply(target, change)];
      assert actorId in ActiveAdmins(users);
      return Ok(users[targetId]);
    }

    /** `updateRole`: an active administrator gives somebody else the role. */
    method UpdateRole(actorId: UserId, targetId: UserId, role: Role) returns (r: Result<User, ManagementError>)
      requires Valid()
      modifies this`users
      ensures Valid()
      ensures r.Ok? <==> MayManage(old(users), actorId, targetId)
      ensures r == Err(UserNotFound) <==> actorId != targetId && targetId !in old(users)
      ensures r.Err? ==> r.error in {UserNotFound, SelfManagementNotAllowed} && users == old(users)
      ensures r.Ok? ==>
                users == old(users)[targetId := User(old(users)[targetId].email, role, old(users)[targetId].isActive)]
                && r.value == users[targetId]
      ensures old(ActiveAdmins(users)) != {} ==> ActiveAdmins(users) != {}
    {
      r := UpdateManagedUser(actorId, targetId, SetRole(role));
    }

    /** `updateStatus` publishes a deactivation once it is stored. */
    method UpdateStatus(actorId: UserId, targetId: UserId, isActive: bool) returns (r: Result<User, ManagementError>)
      requires Valid()
      modifies this
      ensures Valid()
      ensures r.Ok? <==> MayManage(old(users), actorId, targetId)
      ensures r == Err(UserNotFound) <==> actorId != targetId && targetId !in old(users)
      ensures r.Err? ==> r.error in {UserNotFound, SelfManagementNotAllowed} && users == old(users)
      ensures r.Ok? ==>
                users == old(users)[targetId := User(old(users)[targetId].email, old(users)[targetId].role, isActive)]
                && r.value == users[targetId]
      ensures deactivated == old(deactivated) + if r.Ok? && !isActive then [targetId] else []
      ensures old(ActiveAdmins(users)) != {} ==> ActiveAdmins(users) != {}
    {
      r := UpdateManagedUser(actorId, targetId, SetActive(isActive));
      if r.Ok? && !r.value.isActive {
        deactivated := deactivated + [targetId];
      }
    }

    /** `provisionBootstrapAccount` for an ADMIN or STAFF account. */
    method ProvisionBootstrapAccount(email: string, role: Role, hasPassword: bool, newId: UserId)
        returns (outcome: BootstrapOutcome)
      requires Valid() && role != Student && newId !in users
      modifies this`users
      ensures Valid()
      ensures outcome == Created <==> !old(Registered(users, email)) && hasPassword
      ensures outcome == AccountMissing <==> !old(Registered(users, email)) && !hasPassword
      ensures outcome == Created ==> users == old(users)[newId := User(email, role, true)]
      ensures outcome == Promoted <==> role == Admin && old(Registered(users, email)) && old(ActiveAdmins(users)) == {}
      ensures outcome == Promoted ==>
                exists id :: id in old(users) && old(users)[id].email == email
                  && users == old(users)[id := User(email, Admin, true)]
      ensures forall id :: id in old(users) && old(users)[id].email == email ==>
                outcome == if old(users)[id].role == role && old(users)[id].isActive then AlreadyProvisioned
                           else if role != Admin then Unchanged
                           else if old(ActiveAdmins(users)) != {} then AdminExists
                           else Promoted
      ensures outcome != Created && outcome != Promoted ==> users == old(users)
      ensures role == Admin && (hasPassword || old(Registered(users, email))) ==> ActiveAdmins(users) != {}
    {
      var found := set id | id in users && users[id].email == email;
      assert forall id :: id in users && users[id].email == email ==> id in found;
      if found == {} {
        assert !Registered(users, email);
        if !hasPassword {
          return AccountMissing;
        }
        users := users[newId := User(email, role, true)];
        assert role == Admin ==> newId in ActiveAdmins(users);
        return Created;
      }
      var existing :| existing in found;
      assert Registered(users, email);
      if users[existing].role == role && users[existing].isActive {
        assert role == Admin ==> existing in ActiveAdmins(users);
        return AlreadyProvisioned;
      }
      if role != Admin {
        return Unchanged;
      }
      if |ActiveAdmins(users)| > 0 {
        return AdminExists;
      }
      users := users[existing := users[existing].(role := Admin, isActive := true)];
      assert existing in ActiveAdmins(users);
      return Promoted;
    }
  }
}
