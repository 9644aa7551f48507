/** The admin-area middleware (app/Http/Middleware/EnsureUserIsAdmin.php). */
module AdminGate {
  import opened Wrappers
  import opened Accounts

  datatype Decision = PassOn | Forbidden

  /**
   * `handle`: a request goes on when there is a signed-in user who is a
   * super admin or holds the admin role; anything else is a 403.
   */
  function Handle(user: Option<User>): (d: Decision)
    ensures user.None? ==> d == Forbidden
    ensures user.Some? && user.value.isSuperAdmin ==> d == PassOn
    ensures user.Some? && user.value.HasRole(AdminRole) ==> d == PassOn
    ensures d == PassOn ==> user.Some? && (user.value.isSuperAdmin || AdminRole in user.value.roles)
  {
    if user.None? || (!user.value.isSuperAdmin && !user.value.HasRole(AdminRole)) then Forbidden else PassOn
  }

  /** A super admin passes whatever roles it holds, and a plain user with other roles does not. */
  lemma SuperAdminFlagAloneDecides(u: User, roles: set<string>)
    requires AdminRole !in roles
    ensures Handle(Some(u.(roles := roles))) == (if u.isSuperAdmin then PassOn else Forbidden)
  {
  }

  /** The middleware looks neither at the ban flag nor at the pool-level roles. */
  lemma BanAndPoolRolesAreIgnored(u: User, banned: bool, bannedAt: Option<int>)
    ensures Handle(Some(u.(isBanned := banned, bannedAt := bannedAt))) == Handle(Some(u))
    ensures Handle(Some(u.(roles := u.roles + {PoolAdminRole, SuperAdminRole}))) == Handle(Some(u))
  {
  }
}
