/** User administration within one tenant: what an update refuses, what it writes, and role defaults. */
module UserAdmin {
  import opened Wrappers
  import opened Tokens

  datatype Role = Admin | Manager | Staff

  type Permission = string

  const GUESTS_VIEW: Permission := "guests:view"
  const GUESTS_EDIT: Permission := "guests:edit"
  const NETWORK_VIEW: Permission := "network:view"
  const NETWORK_EDIT: Permission := "network:edit"
  const TICKETS_VIEW: Permission := "tickets:view"
  const TICKETS_EDIT: Permission := "tickets:edit"
  const REPORTS_VIEW: Permission := "reports:view"
  const USERS_MANAGE: Permission := "users:manage"

  function RoleDefaults(role: Role): seq<Permission> {
    match role
    case Admin =>
      [GUESTS_VIEW, GUESTS_EDIT, NETWORK_VIEW, NETWORK_EDIT, TICKETS_VIEW, TICKETS_EDIT, REPORTS_VIEW, USERS_MANAGE]
    case Manager =>
      [GUESTS_VIEW, GUESTS_EDIT, TICKETS_VIEW, TICKETS_EDIT, NETWORK_VIEW, REPORTS_VIEW, USERS_MANAGE]
    case Staff => [GUESTS_VIEW, TICKETS_VIEW]
  }

  datatype User = User(role: Role, permissions: seq<Permission>, isActive: bool) {
    predicate ActiveAdmin() {
      role == Admin && isActive
    }
  }

  /** The users of the current tenant, which is all the row policy shows. */
  type Users = map<Uuid, User>

  datatype CreateUser = CreateUser(role: Option<Role>, permissions: Option<seq<Permission>>)

  datatype UpdateUser = UpdateUser(role: Option<Role>, permissions: Option<seq<Permission>>, isActive: Option<bool>) {
    /** It would leave no active admin where it found one. */
    predicate Demotes() {
      isActive == Some(false) || (role.Some? && role.value != Admin)
    }
  }

  datatype Refusal = NotFound | SelfDeactivation | SelfRoleChange | LastAdmin

  function Created(dto: CreateUser): User {
    var role := if dto.role.Some? then dto.role.value else Staff;
    User(role, if dto.permissions.Some? then dto.permissions.value else RoleDefaults(role), true)
  }

  /** A role without a permission list re-seeds the role's defaults. */
  function Updated(user: User, dto: UpdateUser): User {
    User(
      if dto.role.Some? then dto.role.value else user.role,
      if dto.permissions.Some? then dto.permissions.value
      else if dto.role.Some? then RoleDefaults(dto.role.value)
      else user.permissions,
      if dto.isActive.Some? then dto.isActive.value else user.isActive)
  }

  /** assertNotSelfLockout. */
  function SelfLockout(id: Uuid, actor: Uuid, dto: UpdateUser, target: User): Option<Refusal> {
    if id != actor then None
    else if dto.isActive == Some(false) then Some(SelfDeactivation)
    else if dto.role.Some? && dto.role.value != target.role then Some(SelfRoleChange)
    else None
  }

  /** The target is an active admin and would stop being one. */
  predicate DropsThisAdmin(dto: UpdateUser, target: User) {
    target.ActiveAdmin() && dto.Demotes()
  }

  function ActiveAdmins(users: Users): set<Uuid> {
    set u | u in users && users[u].ActiveAdmin()
  }

  /** update, when nothing else runs in between: the refusal, or the users afterwards. */
  function Outcome(users: Users, id: Uuid, dto: UpdateUser, actor: Uuid): Result<Users, Refusal> {
    if id !in users then Err(NotFound)
    else
      var lockout := SelfLockout(id, actor, dto, users[id]);
      if lockout.Some? then Err(lockout.value)
      else if DropsThisAdmin(dto, users[id]) && |ActiveAdmins(users)| <= 1 then Err(LastAdmin)
      else Ok(users[id := Updated(users[id], dto)])
  }

  // ----- what these come to, field by field -----

  /** An admin holds every permission by default, a manager all but editing the network, staff two. */
  lemma RoleDefaultsMean()
    ensures
      var all := {"guests:view", "guests:edit", "network:view", "network:edit",
                  "tickets:view", "tickets:edit", "reports:view", "users:manage"};
      && (set p | p in RoleDefaults(Admin)) == all
      && (set p | p in RoleDefaults(Manager)) == all - {"network:edit"}
      && (set p | p in RoleDefaults(Staff)) == {"guests:view", "tickets:view"}
    ensures forall role, i, j | 0 <= i < j < |RoleDefaults(role)| :: RoleDefaults(role)[i] != RoleDefaults(role)[j]
  {
    DefaultsOf(Admin);
    DefaultsOf(Manager);
    DefaultsOf(Staff);
  }

  lemma DefaultsOf(role: Role)
    ensures
      var all := {"guests:view", "guests:edit", "network:view", "network:edit",
                  "tickets:view", "tickets:edit", "reports:view", "users:manage"};
      (set p | p in RoleDefaults(role)) == match role
        case Admin => all
        case Manager => all - {"network:edit"}
        case Staff => {"guests:view", "tickets:view"}
  {
    var defaults := RoleDefaults(role);
    assert forall i :: 0 <= i < |defaults| ==> defaults[i] in defaults;
    match role
    case Admin =>
      assert defaults[0] == "guests:view" && defaults[1] == "guests:edit" && defaults[2] == "network:view" &&
        defaults[3] == "network:edit" && defaults[4] == "tickets:view" && defaults[5] == "tickets:edit" &&
        defaults[6] == "reports:view" && defaults[7] == "users:manage";
    case Manager =>
      assert defaults[0] == "guests:view" && defaults[1] == "guests:edit" && defaults[2] == "tickets:view" &&
        defaults[3] == "tickets:edit" && defaults[4] == "network:view" && defaults[5] == "reports:view" &&
        defaults[6] == "users:manage";
    case Staff => assert defaults[0] == "guests:view" && defaults[1] == "tickets:view";
  }

  /** Another user than this one is an active admin. */
  ghost predicate AdminBeside(users: Users, id: Uuid) {
    exists other :: other in users && other != id && users[other].role == Admin && users[other].isActive
  }

  lemma OneAdminIff(users: Users, id: Uuid)
    requires id in users && users[id].role == Admin && users[id].isActive
    ensures |ActiveAdmins(users)| <= 1 <==> !AdminBeside(users, id)
  {
    if AdminBeside(users, id) {
      var other :| other in users && other != id && users[other].role == Admin && users[other].isActive;
      SubsetIsSmaller({id, other}, ActiveAdmins(users));
    } else {
      SubsetIsSmaller(ActiveAdmins(users), {id});
    }
  }

  /** The update would leave its target no active admin, if it is one. */
  predicate Demoting(dto: UpdateUser) {
    dto.isActive == Some(false) || dto.role == Some(Manager) || dto.role == Some(Staff)
  }

  /**
   * Which refusal an update is given, if any: nobody switches off their own account or changes their
   * own role, and nobody takes the last active admin away. An update that goes through writes the
   * fields it names, and the defaults of a role it names without a list; no other user changes.
   */
  lemma OutcomeMeans(users: Users, id: Uuid, dto: UpdateUser, actor: Uuid)
    ensures
      var outcome := Outcome(users, id, dto, actor);
      var ownRole := dto.role.Some? && id in users && dto.role.value != users[id].role;
      var lastOne := id in users && users[id].role == Admin && users[id].isActive && !AdminBeside(users, id);
      if id !in users then outcome == Err(NotFound)
      else if id == actor && dto.isActive == Some(false) then outcome == Err(SelfDeactivation)
      else if id == actor && ownRole then outcome == Err(SelfRoleChange)
      else if lastOne && Demoting(dto) then outcome == Err(LastAdmin)
      else
        && outcome.Ok? && outcome.value.Keys == users.Keys
        && (forall other | other in users && other != id :: outcome.value[other] == users[other])
        && var before, after := users[id], outcome.value[id];
        && (dto.role.Some? ==> after.role == dto.role.value)
        && (dto.role.None? ==> after.role == before.role)
        && (dto.isActive.Some? ==> after.isActive == dto.isActive.value)
        && (dto.isActive.None? ==> after.isActive == before.isActive)
        && (dto.permissions.Some? ==> after.permissions == dto.permissions.value)
        && (dto.permissions.None? && dto.role.Some? ==> after.permissions == RoleDefaults(dto.role.value))
        && (dto.permissions.None? && dto.role.None? ==> after.permissions == before.permissions)
  {
    if id in users && users[id].role == Admin && users[id].isActive {
      OneAdminIff(users, id);
    }
  }

  lemma AnotherAdmin(users: Users, id: Uuid)
    requires |ActiveAdmins(users)| > 1
    ensures exists other :: other in ActiveAdmins(users) && other != id
  {
    if forall other :: other in ActiveAdmins(users) ==> other == id {
      assert ActiveAdmins(users) <= {id};
      SubsetIsSmaller(ActiveAdmins(users), {id});
    }
  }

  /** An update that goes through does not take a tenant's last active admin away. */
  lemma UpdateKeepsAnAdmin(users: Users, id: Uuid, dto: UpdateUser, actor: Uuid)
    requires ActiveAdmins(users) != {}
    ensures Outcome(users, id, dto, actor).Ok? ==> ActiveAdmins(Outcome(users, id, dto, actor).value) != {}
  {
    var out := Outcome(users, id, dto, actor);
    if out.Ok? {
      if DropsThisAdmin(dto, users[id]) {
        AnotherAdmin(users, id);
        var other :| other in ActiveAdmins(users) && other != id;
        assert other in ActiveAdmins(out.value);
      } else {
        var admin :| admin in ActiveAdmins(users);
        assert admin in ActiveAdmins(out.value);
      }
    }
  }

  class UsersService {
    var users: Users

    constructor (users: Users)
      ensures this.users == users
    {
      this.users := users;
    }

    method Create(dto: CreateUser, id: Uuid) returns (user: User)
      requires id !in users
      modifies this
      ensures users == old(users)[id := user] && user == Created(dto)
      ensures user.isActive && user.role == (if dto.role.Some? then dto.role.value else Staff)
      ensures dto.permissions.Some? ==> user.permissions == dto.permissions.value
      ensures dto.permissions.None? ==> user.permissions == RoleDefaults(user.role)
      ensures ActiveAdmins(old(users)) <= ActiveAdmins(users)
    {
      var role := match dto.role case Some(r) => r case None => Staff;
      var permissions := match dto.permissions case Some(p) => p case None => RoleDefaults(role);
      user := User(role, permissions, true);
      users := users[id := user];
    }

    method Update(id: Uuid, dto: UpdateUser, actor: Uuid) returns (answer: Result<User, Refusal>)
      modifies this
      ensures match Outcome(old(users), id, dto, actor)
        case Err(refusal) => answer == Err(refusal) && users == old(users)
        case Ok(users') => users == users' && answer == Ok(users'[id])
      ensures ActiveAdmins(old(users)) != {} ==> ActiveAdmins(users) != {}
      ensures id == actor && id in old(users) ==>
        && id in users && users[id].role == old(users)[id].role
        && (old(users)[id].isActive ==> users[id].isActive)
      ensures id == actor && id in old(users) && dto.isActive == Some(false) ==> answer == Err(SelfDeactivation)
    {
      OutcomeMeans(users, id, dto, actor);
      if id !in users {
        return Err(NotFound);
      }
      var target := users[id];
      var lockout := SelfLockout(id, actor, dto, target);
      if lockout.Some? {
        return Err(lockout.value);
      }
      if DropsThisAdmin(dto, target) {
        if |ActiveAdmins(users)| <= 1 {
          return Err(LastAdmin);
        }
      }
      if ActiveAdmins(users) != {} {
        UpdateKeepsAnAdmin(users, id, dto, actor);
      }
      var updated := target;
      if dto.role.Some? {
        updated := updated.(role := dto.role.value);
        if dto.permissions.None? {
          updated := updated.(permissions := RoleDefaults(dto.role.value));
        }
      }
      if dto.permissions.Some? {
        updated := updated.(permissions := dto.permissions.value);
      }
      if dto.isActive.Some? {
        updated := updated.(isActive := dto.isActive.value);
      }
      users := users[id := updated];
      return Ok(updated);
    }
  }
}
