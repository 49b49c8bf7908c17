/**
 * The session provider (context/AuthContext.tsx): a single mutable slot for
 * the signed-in user plus a loading flag, the value it publishes to the
 * screens, the permission check over that value, and `useAuth`.
 */
module AuthContext {
  import opened Wrappers
  import opened Auth

  datatype User = User(id: string, name: string, email: string, role: UserRole)

  /** The development user that every session starts with. */
  const MockUser: User := User("user_123", "Demo User", "demo@riblaeditores.com", GlobalAdmin)

  /** What the provider hands to the screens on one render: `user`, the
      derived `role`, `isLoading`; `checkPermission` is `CheckPermission`
      applied to `user`. */
  datatype AuthContextValue = AuthContextValue(user: Option<User>, role: Option<UserRole>, isLoading: bool)

  /** `role` is the user's role, or null when nobody is signed in. */
  predicate RoleMatchesUser(v: AuthContextValue) {
    v.role == if v.user.Some? then Some(v.user.value.role) else None
  }

  /** `checkPermission(p)`: false without a user, otherwise whether the
      user's role lists `p` in ROLE_PERMISSIONS. */
  function CheckPermission(user: Option<User>, p: Permission): (r: bool)
    ensures user.None? ==> !r
    ensures user.Some? ==> (r <==> p in PermissionSet(user.value.role))
  {
    user.Some? && Includes(RolePermissions(user.value.role), p)
  }

  /** Signed out, no permission holds. */
  lemma NoUserNoPermission(p: Permission)
    ensures !CheckPermission(None, p)
  {
  }

  /** A permission that no role grants is refused whoever is signed in. */
  lemma UngrantedPermissionRefused(user: Option<User>, p: Permission)
    requires forall r: UserRole :: p !in PermissionSet(r)
    ensures !CheckPermission(user, p)
  {
    if user.Some? {
      assert p !in PermissionSet(user.value.role);
    }
  }

  /** The development user may do everything. */
  lemma MockUserMayDoAll(p: Permission)
    ensures CheckPermission(Some(MockUser), p)
  {
    GlobalAdminHasAll(p);
  }

  /** A more privileged role never loses a permission a less privileged one has. */
  lemma CheckPermissionMonotone(u: User, p: Permission)
    requires CheckPermission(Some(u), p)
    ensures CheckPermission(Some(u.(role := GlobalAdmin)), p)
    ensures u.role == Collaborator ==> CheckPermission(Some(u.(role := ContentAdmin)), p)
  {
    PermissionsNest();
  }

  /** AuthProvider: the `user` and `isLoading` state slots. */
  class AuthProvider {
    var user: Option<User>
    var isLoading: bool

    constructor ()
      ensures user == None && isLoading
    {
      user := None;
      isLoading := true;
    }

    /** initSession: wait for the simulated delay, install the mock user if
        the wait completed, and in every case clear `isLoading`. */
    method InitSession(delayCompleted: bool)
      modifies this
      ensures !isLoading
      ensures user == if delayCompleted then Some(MockUser) else old(user)
    {
      if delayCompleted {
        user := Some(MockUser);
      }
      isLoading := false;
    }

    /** debugSetRole: with a user, replace only its role; without, do nothing. */
    method DebugSetRole(newRole: UserRole)
      modifies this
      ensures old(user).None? ==> user == None
      ensures old(user).Some? ==> user.Some? && user.value.role == newRole
      ensures old(user).Some? ==> user.value.id == old(user).value.id
                                  && user.value.name == old(user).value.name
                                  && user.value.email == old(user).value.email
      ensures isLoading == old(isLoading)
    {
      if user.Some? {
        user := Some(user.value.(role := newRole));
      }
    }

    /** The value published to the screens on the current render. */
    function Value(): (v: AuthContextValue)
      reads this
      ensures RoleMatchesUser(v)
      ensures v.user == user && v.isLoading == isLoading
    {
      AuthContextValue(user, if user.Some? then Some(user.value.role) else None, isLoading)
    }
  }

  const NoProviderMessage: string := "useAuth must be used within an AuthProvider"

  /** useAuth: the nearest provider's value; outside any provider it throws. */
  function UseAuth(ctx: Option<AuthContextValue>): (r: Result<AuthContextValue, string>)
    ensures ctx.None? <==> r.Err?
    ensures r.Err? ==> r.error == NoProviderMessage
    ensures r.Ok? ==> r.value == ctx.value
  {
    match ctx
    case None => Err(NoProviderMessage)
    case Some(v) => Ok(v)
  }

  /** A session's life as the provider runs it: while loading nobody is
      signed in and `p` is refused; the mock administrator may then do `p`;
      after a debug switch to `newRole` the session holds `p` exactly when
      that role lists it. */
  method SessionLifecycle(newRole: UserRole, p: Permission) returns (loading: bool, signedIn: bool, switched: bool)
    ensures !loading
    ensures signedIn
    ensures switched <==> p in PermissionSet(newRole)
  {
    var provider := new AuthProvider();
    loading := CheckPermission(provider.Value().user, p);
    provider.InitSession(true);
    MockUserMayDoAll(p);
    signedIn := CheckPermission(provider.Value().user, p);
    provider.DebugSetRole(newRole);
    switched := CheckPermission(provider.Value().user, p);
  }
}
