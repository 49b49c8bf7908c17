/**
 * The closed set of roles, the seven permission tags and the static table
 * that grants each role its list of permissions (types/auth.ts).
 */
module Auth {
  import opened Wrappers

  datatype UserRole = GlobalAdmin | ContentAdmin | Collaborator

  datatype Permission =
    | ManageSettings   // global settings, plugins, users
    | ManageProducts   // create, edit and delete products
    | PublishProducts  // publish products to the live site
    | ManageBlogAll    // edit or delete any blog post
    | ManageBlogOwn    // edit or delete one's own blog post
    | PublishBlog      // publish blog posts
    | UploadMedia      // upload images and files

  const AllRoles: seq<UserRole> := [GlobalAdmin, ContentAdmin, Collaborator]

  /** The enum's string value, as stored in profiles and sent by the role endpoint. */
  function RoleName(r: UserRole): (s: string)
    ensures ParseRole(s) == Some(r)
  {
    match r
    case GlobalAdmin => "GLOBAL_ADMIN"
    case ContentAdmin => "CONTENT_ADMIN"
    case Collaborator => "COLLABORATOR"
  }

  /** The enum member whose string value is `s`, if any. */
  function ParseRole(s: string): (r: Option<UserRole>)
    ensures r.Some? ==> s in {"GLOBAL_ADMIN", "CONTENT_ADMIN", "COLLABORATOR"}
  {
    if s == "GLOBAL_ADMIN" then Some(GlobalAdmin)
    else if s == "CONTENT_ADMIN" then Some(ContentAdmin)
    else if s == "COLLABORATOR" then Some(Collaborator)
    else None
  }

  /** Only the three enum strings name a role, and each names its own. */
  lemma ParseRoleInverse(s: string)
    ensures ParseRole(s).Some? ==> RoleName(ParseRole(s).value) == s
  {
  }

  /** The role enumeration has exactly three members. */
  lemma RolesAreThree(r: UserRole)
    ensures r in AllRoles && |AllRoles| == 3
    ensures AllRoles[0] != AllRoles[1] && AllRoles[1] != AllRoles[2] && AllRoles[0] != AllRoles[2]
  {
  }

  /** ROLE_PERMISSIONS: each role's permission list, in the table's order. */
  function RolePermissions(r: UserRole): seq<Permission> {
    match r
    case GlobalAdmin =>
      [ManageSettings, ManageProducts, PublishProducts, ManageBlogAll, ManageBlogOwn, PublishBlog, UploadMedia]
    case ContentAdmin =>
      [ManageProducts, PublishProducts, ManageBlogAll, ManageBlogOwn, PublishBlog, UploadMedia]
    case Collaborator =>
      [ManageBlogOwn, PublishBlog, UploadMedia]
  }

  /** `ROLE_PERMISSIONS[key]` for a key that arrives as text: a role string
      outside the enum has no entry (the lookup yields `undefined`). */
  function PermissionsForName(name: string): (ps: Option<seq<Permission>>)
    ensures ps.Some? <==> ParseRole(name).Some?
    ensures ps.Some? ==> ps.value == RolePermissions(ParseRole(name).value)
  {
    match ParseRole(name)
    case Some(r) => Some(RolePermissions(r))
    case None => None
  }

  function PermissionSet(r: UserRole): set<Permission> {
    set p | p in RolePermissions(r)
  }

  /** `list.includes(p)`, scanning from the front. */
  function Includes(list: seq<Permission>, p: Permission): (r: bool)
    ensures r <==> p in list
  {
    if list == [] then false
    else if list[0] == p then true
    else Includes(list[1..], p)
  }

  predicate NoDuplicates<T(==)>(s: seq<T>) {
    forall i, j :: 0 <= i < j < |s| ==> s[i] != s[j]
  }

  /** The table is total: every role has one non-empty list without repeats. */
  lemma TableIsTotal(r: UserRole)
    ensures |RolePermissions(r)| > 0
    ensures NoDuplicates(RolePermissions(r))
  {
  }

  /** GLOBAL_ADMIN is granted every one of the seven tags. */
  lemma GlobalAdminHasAll(p: Permission)
    ensures p in RolePermissions(GlobalAdmin)
  {
  }

  /** CONTENT_ADMIN's set is GLOBAL_ADMIN's without `manage_settings`. */
  lemma ContentAdminIsGlobalWithoutSettings()
    ensures PermissionSet(ContentAdmin) == PermissionSet(GlobalAdmin) - {ManageSettings}
  {
    forall p: Permission ensures p in PermissionSet(GlobalAdmin) {
      GlobalAdminHasAll(p);
    }
  }

  /** COLLABORATOR's set is exactly own-blog, publish-blog and upload-media. */
  lemma CollaboratorSet()
    ensures PermissionSet(Collaborator) == {ManageBlogOwn, PublishBlog, UploadMedia}
  {
  }

  /** The sets nest: COLLABORATOR within CONTENT_ADMIN within GLOBAL_ADMIN. */
  lemma PermissionsNest()
    ensures PermissionSet(Collaborator) <= PermissionSet(ContentAdmin) <= PermissionSet(GlobalAdmin)
  {
    ContentAdminIsGlobalWithoutSettings();
    CollaboratorSet();
  }

  /** Every role may manage its own blog posts. */
  lemma EveryRoleManagesOwnBlog(r: UserRole)
    ensures ManageBlogOwn in RolePermissions(r)
  {
  }
}
