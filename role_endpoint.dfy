/**
 * The server endpoint that tells the browser the signed-in user's role
 * (app/api/auth/route.ts). The two awaited look-ups, the session user and
 * that user's `profiles` row, arrive as inputs.
 */
module RoleEndpoint {
  import opened Wrappers
  import opened Auth

  /** The `profiles` row as selected: only its `role` column, which may be null. */
  datatype ProfileRow = ProfileRow(role: Option<string>)

  /** The JSON body `{ role }` and the HTTP status. */
  datatype RoleResponse = RoleResponse(status: int, role: Option<string>)

  const DefaultRole: string := "COLLABORATOR"

  /** `profile?.role || 'COLLABORATOR'`: a missing row, a null role and an
      empty role all fall back to the default. */
  function RoleOrDefault(profile: Option<ProfileRow>): (role: string)
    ensures role != ""
    ensures profile.Some? && profile.value.role.Some? && profile.value.role.value != ""
            ==> role == profile.value.role.value
    ensures (profile.None? || profile.value.role.None? || profile.value.role.value == "")
            ==> role == DefaultRole
  {
    match profile
    case Some(ProfileRow(Some(r))) => if r != "" then r else DefaultRole
    case _ => DefaultRole
  }

  /** GET: 401 with a null role when nobody is signed in, otherwise 200 with
      the stored role or the default. The profile is read only for a user. */
  function Get(userId: Option<string>, profile: Option<ProfileRow>): (r: RoleResponse)
    ensures userId.None? <==> r.status == 401
    ensures userId.None? ==> r.role == None
    ensures userId.Some? ==> r.status == 200 && r.role == Some(RoleOrDefault(profile))
  {
    if userId.None? then RoleResponse(401, None)
    else RoleResponse(200, Some(RoleOrDefault(profile)))
  }

  /** For a signed-in user the role sent back is never null or empty. */
  lemma SignedInRoleNeverNull(userId: string, profile: Option<ProfileRow>)
    ensures Get(Some(userId), profile).role.Some?
    ensures Get(Some(userId), profile).role.value != ""
  {
  }

  /** A stored enum role reaches the browser unchanged, and so does any other
      non-empty text in the column: the endpoint does not check the enum. */
  lemma StoredRoleIsSent(userId: string, role: UserRole, other: string)
    requires other != "" && ParseRole(other).None?
    ensures Get(Some(userId), Some(ProfileRow(Some(RoleName(role))))).role == Some(RoleName(role))
    ensures Get(Some(userId), Some(ProfileRow(Some(other)))).role == Some(other)
  {
  }

  /** Whatever the profile, a signed-out request never sees a role. */
  lemma SignedOutSeesNothing(profile: Option<ProfileRow>)
    ensures Get(None, profile) == RoleResponse(401, None)
  {
  }
}
