/** The two hooks screens use to ask the session (hooks/useAuthorization.ts). */
module Authorization {
  import opened Wrappers
  import opened Auth
  import opened AuthContext

  /** useCan(p): the provider's `checkPermission(p)`; throws outside a provider. */
  function UseCan(ctx: Option<AuthContextValue>, p: Permission): (r: Result<bool, string>)
    ensures ctx.None? ==> r == Err(NoProviderMessage)
    ensures ctx.Some? ==> r.Ok? && (r.value <==> CheckPermission(ctx.value.user, p))
  {
    match UseAuth(ctx)
    case Err(e) => Err(e)
    case Ok(v) => Ok(CheckPermission(v.user, p))
  }

  /** useRole(): the provider's `role`, possibly null; throws outside a provider. */
  function UseRole(ctx: Option<AuthContextValue>): (r: Result<Option<UserRole>, string>)
    ensures ctx.None? ==> r == Err(NoProviderMessage)
    ensures ctx.Some? ==> r == Ok(ctx.value.role)
  {
    match UseAuth(ctx)
    case Err(e) => Err(e)
    case Ok(v) => Ok(v.role)
  }

  /** Inside a provider with nobody signed in, `useCan` answers false for every tag. */
  lemma UseCanSignedOut(v: AuthContextValue, p: Permission)
    requires v.user.None?
    ensures UseCan(Some(v), p) == Ok(false)
  {
  }

  /** On a value the provider published, `useRole` is null exactly when `useCan`
      refuses everything. */
  lemma UseRoleNullIffNothingAllowed(v: AuthContextValue)
    requires RoleMatchesUser(v)
    ensures UseRole(Some(v)) == Ok(None) <==> forall p: Permission :: UseCan(Some(v), p) == Ok(false)
  {
    if v.user.Some? {
      EveryRoleManagesOwnBlog(v.user.value.role);
      assert UseCan(Some(v), ManageBlogOwn) == Ok(true);
    }
  }
}
