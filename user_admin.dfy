/** User management in the admin area (app/Http/Controllers/Admin/UserController.php). */
module UserAdmin {
  import opened Wrappers
  import opened Accounts

  /** Why an action was refused; each is reported under the action's error key. */
  datatype Refusal =
    | SuperAdminProtected         // the target is a super admin
    | OnlySuperAdminManagesAdmins // the target holds the admin role, the actor is not a super admin
    | OnlySuperAdminAssignsAdmin  // the requested role is "admin", the actor is not a super admin
    | InvalidRole                 // the requested role is missing or not a known role
    | OwnAccount                  // the actor tries to delete itself
    | UnknownUser                 // no such user (route model binding answers 404)

  /** Error key of each action: "role", "ban" or "delete". */
  datatype Action = ChangeRole | Ban | Delete

  function ErrorKey(a: Action): string {
    match a
    case ChangeRole => "role"
    case Ban => "ban"
    case Delete => "delete"
  }

  // ---------------------------------------------------------------------------
  // Guards (pure)
  // ---------------------------------------------------------------------------

  /** The guards of `updateRole`, in the order the controller checks them. */
  function RoleChangeRefusal(actor: User, target: User, requested: Option<string>, knownRoles: set<string>): (r: Option<Refusal>)
    ensures target.isSuperAdmin ==> r == Some(SuperAdminProtected)
    ensures !actor.isSuperAdmin && target.HasRole(AdminRole) ==> r.Some?
    ensures !actor.isSuperAdmin && requested == Some(AdminRole) ==> r.Some?
    ensures r.None? <==> !target.isSuperAdmin && requested.Some? && requested.value in knownRoles
                         && (actor.isSuperAdmin || (!target.HasRole(AdminRole) && requested.value != AdminRole))
  {
    if target.isSuperAdmin then Some(SuperAdminProtected)
    else if target.HasRole(AdminRole) && !actor.isSuperAdmin then Some(OnlySuperAdminManagesAdmins)
    else if requested.None? || requested.value !in knownRoles then Some(InvalidRole)
    else if requested.value == AdminRole && !actor.isSuperAdmin then Some(OnlySuperAdminAssignsAdmin)
    else None
  }

  /** The guards of `toggleBan`. */
  function BanRefusal(actor: User, target: User): (r: Option<Refusal>)
    ensures target.isSuperAdmin ==> r == Some(SuperAdminProtected)
    ensures r.None? <==> !target.isSuperAdmin && (actor.isSuperAdmin || !target.HasRole(AdminRole))
  {
    if target.isSuperAdmin then Some(SuperAdminProtected)
    else if target.HasRole(AdminRole) && !actor.isSuperAdmin then Some(OnlySuperAdminManagesAdmins)
    else None
  }

  /** The guards of `destroy`: the self-deletion check comes before the admin check. */
  function DeleteRefusal(actor: User, target: User): (r: Option<Refusal>)
    ensures target.isSuperAdmin ==> r == Some(SuperAdminProtected)
    ensures !target.isSuperAdmin && target.id == actor.id ==> r == Some(OwnAccount)
    ensures r.None? <==> !target.isSuperAdmin && target.id != actor.id
                         && (actor.isSuperAdmin || !target.HasRole(AdminRole))
  {
    if target.isSuperAdmin then Some(SuperAdminProtected)
    else if target.id == actor.id then Some(OwnAccount)
    else if target.HasRole(AdminRole) && !actor.isSuperAdmin then Some(OnlySuperAdminManagesAdmins)
    else None
  }

  /** The ban update: the flag flips, the timestamp is set when banning and cleared when unbanning. */
  function Toggled(u: User, now: int): (v: User)
    ensures v.isBanned == !u.isBanned
    ensures v.bannedAt.Some? <==> v.isBanned
    ensures v.bannedAt.Some? ==> v.bannedAt.value == now
    ensures v == u.(isBanned := v.isBanned, bannedAt := v.bannedAt)
  {
    u.(isBanned := !u.isBanned, bannedAt := if u.isBanned then None else Some(now))
  }

  /** Two toggles restore the original flag, and leave the user unbanned-and-clear or banned at the later time. */
  lemma ToggleTwice(u: User, t1: int, t2: int)
    ensures Toggled(Toggled(u, t1), t2).isBanned == u.isBanned
    ensures Toggled(Toggled(u, t1), t2) == u.(bannedAt := if u.isBanned then Some(t2) else None)
  {
  }

  /** The users `index` lists: never a super admin. */
  function Listed(users: map<int, User>): (listed: map<int, User>)
    ensures listed.Keys <= users.Keys
    ensures forall id :: id in listed ==> listed[id] == users[id] && !listed[id].isSuperAdmin
    ensures forall id :: id in users && !users[id].isSuperAdmin ==> id in listed
  {
    map id | id in users && !users[id].isSuperAdmin :: users[id]
  }

  /** The roles `index` offers: all of them to a super admin, all but "admin" to anyone else. */
  function AssignableRoles(actor: User, knownRoles: set<string>): (offered: set<string>)
    ensures offered <= knownRoles
    ensures AdminRole in offered <==> actor.isSuperAdmin && AdminRole in knownRoles
    ensures forall r :: r in knownRoles && r != AdminRole ==> r in offered
  {
    if actor.isSuperAdmin then knownRoles else knownRoles - {AdminRole}
  }

  /** Whatever `index` offers a non-super-admin, `updateRole` accepts for a non-admin target. */
  lemma OfferedRolesAreAccepted(actor: User, target: User, role: string, knownRoles: set<string>)
    requires role in AssignableRoles(actor, knownRoles)
    requires !target.isSuperAdmin && !target.HasRole(AdminRole)
    ensures RoleChangeRefusal(actor, target, Some(role), knownRoles).None?
  {
  }

  // ---------------------------------------------------------------------------
  // The user table
  // ---------------------------------------------------------------------------

  /** The users table with the known role names; the controller updates users in place. */
  class UserDirectory {
    var users: map<int, User>
    const knownRoles: set<string>

    /** Every stored user sits under its own id. */
    ghost predicate Valid()
      reads this
    {
      forall id :: id in users ==> users[id].id == id
    }

    constructor (users0: map<int, User>, knownRoles: set<string>)
      requires forall id :: id in users0 ==> users0[id].id == id
      ensures Valid() && users == users0 && this.knownRoles == knownRoles
    {
      users := users0;
      this.knownRoles := knownRoles;
    }

    /** `updateRole`: on success the target holds exactly the requested role. */
    method UpdateRole(actor: User, targetId: int, requested: Option<string>) returns (r: Option<Refusal>)
      requires Valid()
      modifies this`users
      ensures Valid()
      ensures targetId !in old(users) ==> r == Some(UnknownUser) && users == old(users)
      ensures targetId in old(users) ==> r == RoleChangeRefusal(actor, old(users)[targetId], requested, knownRoles)
      ensures r.Some? ==> users == old(users)
      ensures r.None? ==> users == old(users)[targetId := old(users)[targetId].(roles := {requested.value})]
    {
      if targetId !in users {
        return Some(UnknownUser);
      }
      var target := users[targetId];
      r := RoleChangeRefusal(actor, target, requested, knownRoles);
      if r.None? {
        users := users[targetId := target.(roles := {requested.value})];
      }
    }

    /** `toggleBan`: on success only the target's ban flag and timestamp change. */
    method ToggleBan(actor: User, targetId: int, now: int) returns (r: Option<Refusal>)
      requires Valid()
      modifies this`users
      ensures Valid()
      ensures targetId !in old(users) ==> r == Some(UnknownUser) && users == old(users)
      ensures targetId in old(users) ==> r == BanRefusal(actor, old(users)[targetId])
      ensures r.Some? ==> users == old(users)
      ensures r.None? ==> users == old(users)[targetId := Toggled(old(users)[targetId], now)]
    {
      if targetId !in users {
        return Some(UnknownUser);
      }
      var target := users[targetId];
      r := BanRefusal(actor, target);
      if r.None? {
        users := users[targetId := Toggled(target, now)];
      }
    }

    /** `destroy`: on success exactly the target is gone. */
    method Destroy(actor: User, targetId: int) returns (r: Option<Refusal>)
      requires Valid()
      modifies this`users
      ensures Valid()
      ensures targetId !in old(users) ==> r == Some(UnknownUser) && users == old(users)
      ensures targetId in old(users) ==> r == DeleteRefusal(actor, old(users)[targetId])
      ensures r.Some? ==> users == old(users)
      ensures r.None? ==> users == old(users) - {targetId}
    {
      if targetId !in users {
        return Some(UnknownUser);
      }
      var target := users[targetId];
      r := DeleteRefusal(actor, target);
      if r.None? {
        users := users - {targetId};
      }
    }
  }

  /** An actor stored in the directory can never delete its own account. */
  lemma SelfDeletionRefused(users: map<int, User>, actor: User)
    requires actor.id in users && users[actor.id] == actor
    ensures DeleteRefusal(actor, users[actor.id]).Some?
  {
  }
}
