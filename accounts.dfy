/** The user record shared by the admin area, the middleware and the pool pages. */
module Accounts {
  import opened Wrappers

  /** Role names of the permission package used by the application. */
  const AdminRole: string := "admin"
  const SuperAdminRole: string := "superAdmin"
  const PoolAdminRole: string := "poolAdmin"

  /**
   * A user. `isSuperAdmin` is the `is_super_admin` column, independent of the
   * role named "superAdmin"; `bannedAt` is a timestamp in seconds.
   */
  datatype User = User(id: int, name: string, isSuperAdmin: bool, roles: set<string>,
                       isBanned: bool, bannedAt: Option<int>)
  {
    predicate HasRole(role: string) {
      role in roles
    }
  }
}
