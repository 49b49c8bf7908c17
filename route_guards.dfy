/**
 * The client-side role guards of the back-office screens. Each screen runs
 * the same pattern: while the session is loading it shows a spinner and
 * never redirects; once loaded, a role outside the screen's allowed set is
 * sent to `/` and the screen renders nothing.
 */
module RouteGuards {
  import opened Wrappers
  import opened Auth

  /** What one render of a guarded screen shows. */
  datatype View = Spinner | Nothing | Screen

  /** The redirect the guard's effect issues and the view the render returns. */
  datatype Guard = Guard(redirectHome: bool, view: View)

  predicate Admits(allowed: set<UserRole>, role: Option<UserRole>) {
    role.Some? && role.value in allowed
  }

  /** The shared guard. `pending` is a screen's own loading flag, which keeps
      the spinner up after the session has loaded. */
  function RoleGuard(allowed: set<UserRole>, isLoading: bool, pending: bool, role: Option<UserRole>): (g: Guard)
    ensures g.redirectHome <==> !isLoading && !Admits(allowed, role)
    ensures g.view == Spinner <==> isLoading || pending
    ensures g.view == Screen <==> !isLoading && !pending && Admits(allowed, role)
    ensures g.view == Screen ==> !g.redirectHome
  {
    var redirect := !isLoading && !Admits(allowed, role);
    if isLoading || pending then Guard(redirect, Spinner)
    else if !Admits(allowed, role) then Guard(redirect, Nothing)
    else Guard(redirect, Screen)
  }

  const AdminRoles: set<UserRole> := {GlobalAdmin}
  const EditorialRoles: set<UserRole> := {GlobalAdmin, ContentAdmin}
  const AnyRole: set<UserRole> := {GlobalAdmin, ContentAdmin, Collaborator}

  /** The dashboard (app/admin/page.tsx): GLOBAL_ADMIN only; the spinner also
      stays while its data has not been fetched. */
  function AdminDashboardGuard(isLoading: bool, isFetching: bool, role: Option<UserRole>): (g: Guard)
    ensures g.redirectHome <==> !isLoading && role != Some(GlobalAdmin)
    ensures g.view == Screen <==> !isLoading && !isFetching && role == Some(GlobalAdmin)
  {
    RoleGuard(AdminRoles, isLoading, isFetching, role)
  }

  /** The content screen (app/content-admin/page.tsx). */
  function ContentAdminGuard(isLoading: bool, role: Option<UserRole>): (g: Guard)
    ensures g.redirectHome <==> !isLoading && role != Some(ContentAdmin) && role != Some(GlobalAdmin)
    ensures isLoading <==> g.view == Spinner
  {
    RoleGuard(EditorialRoles, isLoading, false, role)
  }

  /** The catalog manager (app/admin/catalog/page.tsx): the spinner also stays
      while the book list is loading. */
  function CatalogGuard(authLoading: bool, booksLoading: bool, role: Option<UserRole>): (g: Guard)
    ensures g.redirectHome <==> !authLoading && role != Some(GlobalAdmin) && role != Some(ContentAdmin)
    ensures g.view == Spinner <==> authLoading || booksLoading
  {
    RoleGuard(EditorialRoles, authLoading, booksLoading, role)
  }

  /** The new-book form (app/admin/books/new/page.tsx). */
  function NewBookGuard(isLoading: bool, role: Option<UserRole>): (g: Guard)
    ensures g.redirectHome <==> !isLoading && role != Some(GlobalAdmin) && role != Some(ContentAdmin)
    ensures isLoading <==> g.view == Spinner
  {
    RoleGuard(EditorialRoles, isLoading, false, role)
  }

  /** The collaborator screen (app/colaborador/page.tsx): any role at all. */
  function CollaboratorGuard(isLoading: bool, role: Option<UserRole>): (g: Guard)
    ensures g.redirectHome <==> !isLoading && role.None?
    ensures g.view == Nothing <==> !isLoading && role.None?
  {
    assert role.Some? ==> role.value in AnyRole by {
      if role.Some? {
        RolesAreThree(role.value);
      }
    }
    RoleGuard(AnyRole, isLoading, false, role)
  }

  /** The dashboard fetches its data for GLOBAL_ADMIN only. */
  predicate AdminShouldFetch(role: Option<UserRole>) {
    role == Some(GlobalAdmin)
  }

  /** The catalog fetches its books once the session is loaded and the role
      is allowed. */
  predicate CatalogShouldFetch(authLoading: bool, role: Option<UserRole>) {
    !authLoading && Admits(EditorialRoles, role)
  }

  /** A screen that fetches only for admitted roles never fetches for a
      visitor it is about to redirect. */
  lemma FetchOnlyWhenAdmitted(authLoading: bool, role: Option<UserRole>)
    ensures CatalogShouldFetch(authLoading, role) ==> !CatalogGuard(authLoading, false, role).redirectHome
    ensures AdminShouldFetch(role) ==> !AdminDashboardGuard(authLoading, false, role).redirectHome
  {
  }

  /** The allowed sets follow the permission table: the dashboard admits
      exactly the roles that may manage settings, the editorial screens
      exactly those that may manage products, and the collaborator screen
      exactly those that may manage their own posts. */
  lemma GuardsFollowPermissions(r: UserRole)
    ensures Admits(AdminRoles, Some(r)) <==> ManageSettings in PermissionSet(r)
    ensures Admits(EditorialRoles, Some(r)) <==> ManageProducts in PermissionSet(r)
    ensures Admits(AnyRole, Some(r)) <==> ManageBlogOwn in PermissionSet(r)
  {
    EveryRoleManagesOwnBlog(r);
    ContentAdminIsGlobalWithoutSettings();
    CollaboratorSet();
    GlobalAdminHasAll(ManageProducts);
    GlobalAdminHasAll(ManageSettings);
  }

  /** The guards nest: whoever may see the dashboard may see the editorial
      screens, and whoever may see those may see the collaborator screen. */
  lemma GuardsNest(isLoading: bool, role: Option<UserRole>)
    ensures !AdminDashboardGuard(isLoading, false, role).redirectHome ==> !NewBookGuard(isLoading, role).redirectHome
    ensures !NewBookGuard(isLoading, role).redirectHome ==> !CatalogGuard(isLoading, false, role).redirectHome
    ensures !CatalogGuard(isLoading, false, role).redirectHome ==> !ContentAdminGuard(isLoading, role).redirectHome
    ensures !ContentAdminGuard(isLoading, role).redirectHome ==> !CollaboratorGuard(isLoading, role).redirectHome
  {
  }

  /** While loading, no guard redirects and every screen shows its spinner. */
  lemma NoRedirectWhileLoading(role: Option<UserRole>, pending: bool)
    ensures AdminDashboardGuard(true, pending, role) == Guard(false, Spinner)
    ensures ContentAdminGuard(true, role) == Guard(false, Spinner)
    ensures CatalogGuard(true, pending, role) == Guard(false, Spinner)
    ensures NewBookGuard(true, role) == Guard(false, Spinner)
    ensures CollaboratorGuard(true, role) == Guard(false, Spinner)
  {
  }

  /** Screens whose own data is fetched only for admitted roles keep the
      spinner, not the empty view, for a role they turn away: the fetch that
      would clear their loading flag never runs. */
  lemma TurnedAwayKeepsSpinner(role: Option<UserRole>)
    requires !AdminShouldFetch(role)
    ensures AdminDashboardGuard(false, true, role) == Guard(true, Spinner)
  {
  }
}
