# Ribla Editores: a Dafny model of the back-office logic

Ribla Editores is the website and back office of an independent publishing house. The site is a set of React screens over two hosted back ends: a relational store with its own authentication (Supabase), and a WordPress installation answering GraphQL. This project models the decisions those screens make between the user and those services:

- **Roles and permissions.** The three roles, the static role→permission table, the session provider with its permission check and role switch, and the `useCan`/`useRole` hooks.
- **Who may go where.** The `/admin` and `/editor` cookie gate of the edge middleware and its path matcher, the per-screen role guards, the server's role endpoint, and the OAuth callback's redirect table.
- **Signing in.** The WordPress e-mail login with its role mapping and stored records, registration, password reset, and the forgotten-password request with its e-mail pattern.
- **Book entry.** Required-field validation into an errors dictionary, the cover and PDF acceptance tests, the ordered submit sequence, the inserted record, the file pickers, and the affiliate-link editor with its in-place object updates.
- **Lists and displays.** The catalog manager (publish toggle, deletion, search), the dashboard statistics and user tabs, the collaborator and content screens, the editor's publish checks and save-status line, and the home page's journal and catalog sections.
- **Image compression.** Which files are compressed, the resize dimensions the code computes (and the box-fitting resize it evidently intends), the output extension and file name, and the presets.

Every call to a hosted service is an input: an outcome value (answered, error message, thrown) that the caller supplies. Pure decisions are functions with lemmas about them. Page state that handlers update step by step is a class whose methods state the whole new state in terms of those functions.

Modules follow the source files. `Wrappers`, `Strings`, `Seqs` and `UriEncoding` hold the shared vocabulary: options, JavaScript's `trim`/`toLowerCase`/`includes`, filters, and `encodeURIComponent` over UTF-8.

## Development stand-ins in the code

Some of the code marks itself as a stand-in for what a finished product would do. The model follows the code as written:

- **Session restore.** `context/AuthContext.tsx:24` introduces a "MOCK USER for development", and `:38` notes that a real app would fetch the session from the back end at that point. The provider waits, then installs that fixed GLOBAL_ADMIN user. It never reads the `wp_token` cookie or the stored `wp_user`, and it offers no sign-out. `AuthContext.AuthProvider` models that code.
- **Role switching.** `debugSetRole` is marked "Temporary for debugging/demo purposes" (`context/AuthContext.tsx:18`), yet the provider hands it to every screen. It is modelled as `AuthContext.AuthProvider.DebugSetRole`.
- **Closed role set.** `types/auth.ts:1-5` declares exactly three roles. The login screen still stores the role text `EDITOR` for WordPress editors, which is not one of them (`Login.EditorRoleIsOutsideTheEnum`).

## Model

| member | source | states |
|---|---|---|
| Auth.RoleName | types/auth.ts:1-5 | each role's string value parses back to that role |
| Auth.ParseRole | types/auth.ts:1-5 | only the three enum strings name a role |
| Auth.ParseRoleInverse | types/auth.ts:1-5 | a string that parses to a role is that role's own string value |
| Auth.RolesAreThree | types/auth.ts:1-5 | the enum has exactly three distinct members and every role is one of them |
| Auth.PermissionsForName | types/auth.ts:16-39 | a text key has a permission list exactly when it is one of the enum strings, and then it is that role's list |
| Auth.Includes | types/auth.ts:16-39 | `list.includes(p)` holds exactly when `p` is in the list |
| Auth.TableIsTotal | types/auth.ts:16-39 | every role has a non-empty permission list with no repeated tag |
| Auth.GlobalAdminHasAll | types/auth.ts:7-25 | GLOBAL_ADMIN is granted every one of the seven tags |
| Auth.ContentAdminIsGlobalWithoutSettings | types/auth.ts:17-33 | CONTENT_ADMIN's set is GLOBAL_ADMIN's set minus `manage_settings` |
| Auth.CollaboratorSet | types/auth.ts:34-38 | COLLABORATOR's set is exactly own-blog, publish-blog and upload-media |
| Auth.PermissionsNest | types/auth.ts:17-38 | COLLABORATOR ⊆ CONTENT_ADMIN ⊆ GLOBAL_ADMIN |
| Auth.EveryRoleManagesOwnBlog | types/auth.ts:22-35 | every role grants `manage_blog_own` |
| AuthContext.CheckPermission | context/AuthContext.tsx:54-58 | false with no user; with a user, true exactly when the role's permission set holds `p` |
| AuthContext.NoUserNoPermission | context/AuthContext.tsx:55 | signed out, every permission is refused |
| AuthContext.UngrantedPermissionRefused | context/AuthContext.tsx:54-58 | a permission no role grants is refused for any session |
| AuthContext.MockUserMayDoAll | context/AuthContext.tsx:25-30 | the development user (GLOBAL_ADMIN) holds every permission |
| AuthContext.CheckPermissionMonotone | context/AuthContext.tsx:54-58 | raising a user's role never loses a permission |
| AuthContext.AuthProvider.constructor | context/AuthContext.tsx:33-34 | the provider starts with no user and `isLoading` true |
| AuthContext.AuthProvider.InitSession | context/AuthContext.tsx:39-49 | `isLoading` ends false whether or not the wait completed; the mock user is installed only when it did |
| AuthContext.AuthProvider.DebugSetRole | context/AuthContext.tsx:60-64 | with a user only the role changes (id, name, e-mail kept); with none nothing changes |
| AuthContext.AuthProvider.Value | context/AuthContext.tsx:66-73 | the published `role` is the user's role, or null without a user; `user` and `isLoading` are the provider's |
| AuthContext.UseAuth | context/AuthContext.tsx:79-85 | outside a provider it fails with the fixed message; inside it returns the provider's value |
| AuthContext.SessionLifecycle | context/AuthContext.tsx:33-64 | while the provider loads nobody holds a permission; the mock administrator then holds every one; after `debugSetRole(r)` the session holds exactly the permissions `r` lists |
| Authorization.UseCan | hooks/useAuthorization.ts:15-18 | inside a provider, exactly the provider's `checkPermission(p)`; outside, the `useAuth` error |
| Authorization.UseRole | hooks/useAuthorization.ts:24-27 | inside a provider, exactly the context's role (possibly null); outside, the `useAuth` error |
| Authorization.UseCanSignedOut | hooks/useAuthorization.ts:15-18 | with nobody signed in `useCan` is false for every tag |
| Authorization.UseRoleNullIffNothingAllowed | hooks/useAuthorization.ts:11-27 | on a published value, `useRole` is null exactly when `useCan` refuses every tag (so a gate on `useCan` renders nothing) |
| Middleware.HandleRequest | middleware.ts:11-30 | a redirect happens exactly for a protected path without a non-empty `wp_token`, and it changes only the pathname, to `/login` |
| Middleware.IsProtected | middleware.ts:14-15 | a protected path starts with `/` and is at least six characters long, and every path under `/admin/` or `/editor/` is protected |
| Middleware.ProtectionIsRawPrefix | middleware.ts:14-15 | `/admin`, `/editor` and also `/administrator`, `/editorial` are protected; `/login`, `/`, `/blog/admin` are not |
| Middleware.NoTokenGoesToLogin | middleware.ts:18-22 | a protected path without the cookie goes to `/login` on the same origin and query |
| Middleware.EmptyTokenGoesToLogin | middleware.ts:18 | an empty cookie value counts as missing |
| Middleware.TokenPassesEverything | middleware.ts:24-30 | any non-empty token passes every path; no role is checked |
| Middleware.UnprotectedPasses | middleware.ts:13-30 | an unprotected path passes with or without a token |
| Middleware.Edge | middleware.ts:33-44 | only a path the matcher selects can be redirected; an unselected path always passes |
| Middleware.ExcludedByMatcher | middleware.ts:42 | a path the lookahead excludes starts with `_` or `f` or holds a `.`, and is at least four characters long |
| Middleware.ExclusionsNeedUnderscoreOrDot | middleware.ts:42 | the `_next` alternatives need a leading `_`, and the image alternative a `.` in the path |
| Middleware.MatcherSkipsNextAssets | middleware.ts:42 | `/_next/static…` and `/_next/image…` never reach the middleware |
| Middleware.MatcherSkipsFavicon | middleware.ts:42 | `/favicon.ico`, and any `/favicon` + one character + `ico` prefix (unescaped `.`), never reach it |
| Middleware.MatcherSelectsPlainPaths | middleware.ts:42 | a path with no `.` whose text does not begin with `_` or `f` always reaches it |
| Middleware.MatcherSelectsProtectedRoots | middleware.ts:14-42 | `/admin` and `/editor` reach the middleware |
| Middleware.ImagesUnderAdminBypass | middleware.ts:42 | an image path under `/admin/` (`.png`) is served without a token |
| RoleEndpoint.RoleOrDefault | app/api/auth/route.ts:18 | a non-empty stored role is kept; a missing row, null or empty role becomes COLLABORATOR; never empty |
| RoleEndpoint.Get | app/api/auth/route.ts:4-19 | 401 with a null role exactly when nobody is signed in; otherwise 200 with the stored role or the default |
| RoleEndpoint.SignedInRoleNeverNull | app/api/auth/route.ts:18 | a signed-in user always receives a non-empty role |
| RoleEndpoint.StoredRoleIsSent | app/api/auth/route.ts:12-18 | an enum role is sent unchanged, and so is any other non-empty text: the enum is not checked |
| RoleEndpoint.SignedOutSeesNothing | app/api/auth/route.ts:8-10 | a signed-out request gets 401 and no role, whatever the profile |
| OAuthCallback.ErrorText | app/auth/callback/route.ts:15 | `errorDescription` when it is truthy, else `error`; never empty |
| OAuthCallback.LoginWithError | app/auth/callback/route.ts:15-45 | a `/login` target on the request's origin whose only query is the encoded `error` |
| OAuthCallback.Callback | app/auth/callback/route.ts:5-58 | the provider error wins, then a failed exchange (only with a code), then `type=recovery` to the reset page, else `/admin`; always the request's origin |
| OAuthCallback.ErrorWinsOverCode | app/auth/callback/route.ts:12-17 | with a provider error the exchange outcome is never looked at and the target is `/login` |
| OAuthCallback.MissingCodeIsNotAnError | app/auth/callback/route.ts:19-48 | without a code the exchange is irrelevant and the browser is not sent to `/login` |
| OAuthCallback.ErrorParameterIsFaithful | app/auth/callback/route.ts:15-45 | the `error` parameter decodes to the UTF-8 bytes of the message and holds no `&` |
| UriEncoding.Utf8 | app/auth/callback/route.ts:15 | one to four bytes per character, a single byte exactly for ASCII, equal to the code |
| UriEncoding.EncodeUriComponent | app/auth/callback/route.ts:15-45 | the encoding is never shorter than the text and holds only `%` and unreserved characters |
| UriEncoding.DecodeEncode | app/auth/callback/route.ts:15-45 | percent-decoding the encoded text gives back exactly its UTF-8 bytes |
| UriEncoding.UnreservedUnchanged | app/auth/callback/route.ts:15-45 | text made only of unreserved characters is left as it is |
| UriEncoding.NoQuerySeparators | app/auth/callback/route.ts:15-45 | the encoded text holds no `&`, `#`, `=` or space |
| Login.OrElse | app/login/page.tsx:52-54 | a present non-empty text is kept; a missing or empty one gives the fallback |
| Login.FirstRoleName | app/login/page.tsx:46 | a name exactly when the first role node exists and has one, and then that name lower-cased |
| Login.MapWpRole | app/login/page.tsx:47-49 | `administrator` gives GLOBAL_ADMIN, `editor` gives EDITOR, and every other name or none gives COLLABORATOR |
| Login.EditorRoleIsOutsideTheEnum | app/login/page.tsx:49 | the WordPress editor is stored as EDITOR, which names none of the three roles and has no permissions |
| Login.OtherRolesAreInTheEnum | app/login/page.tsx:47-48 | every other outcome names a real role: the global admin for `administrator`, otherwise the collaborator |
| Login.OnlyFirstRoleCounts | app/login/page.tsx:46 | role nodes after the first never change the stored role |
| Login.RoleCaseIgnored | app/login/page.tsx:46-49 | the first role name's capitalisation never changes the stored role |
| Login.BuildUserData | app/login/page.tsx:51-57 | the id, name and e-mail come from the WordPress user when present and non-empty, else `wp-id`, the typed e-mail's text before its first `@`, and the typed e-mail; the role is mapped from the first role name |
| Login.NameFallsBackToLocalPart | app/login/page.tsx:53 | without a name the stored name is a prefix of the typed e-mail with no `@`, ending just before its first `@` |
| Login.LoginErrorMessage | app/login/page.tsx:80-88 | a message mentioning `invalid_username` reports an unknown user; otherwise one mentioning `incorrect_password` a wrong password; anything else, or no message, the generic text |
| Login.UnknownUserWins | app/login/page.tsx:82-85 | an error mentioning both causes is reported as an unknown user |
| Login.TokenCookie | app/login/page.tsx:72 | the cookie line is `wp_token=`, the token and the one-day, whole-site, same-site attributes, and the token can be read back from between them |
| Login.SignedInIffTokenAndUser | app/login/page.tsx:39-78 | the sign-in succeeds exactly when the answer carries a non-empty token and a user, and keeps that token |
| Login.MissingTokenIsInvalidCredentials | app/login/page.tsx:39-78 | an answer without a token is refused as invalid credentials |
| Login.EmailLogin | app/login/page.tsx:33-88 | a thrown request is refused with the message its error text selects; every refusal shows one of the four fixed messages, never the server's text; a sign-in keeps the received non-empty token and the user record built from the answer |
| Login.LoginPage.constructor | app/login/page.tsx:14-20 | no error, neither button busy, the given storage, no cookie, no navigation |
| Login.LoginPage.HandleEmailLogin | app/login/page.tsx:24-92 | loading ends; a sign-in stores the token and the user record, writes the cookie and goes to `/admin` with no error; a refusal shows its message and stores, writes and navigates nothing |
| Login.LoginPage.HandleGoogleLogin | app/login/page.tsx:94-114 | loading ends and the error is the message for the outcome of starting the redirect |
| Login.GoogleMessage | app/login/page.tsx:106-111 | no message exactly when the redirect started; distinct messages for a returned and a thrown error |
| Passwords.HasUppercase | app/login/register/page.tsx:25 | true exactly when some character is an ASCII capital |
| Passwords.HasNumber | app/login/register/page.tsx:26 | true exactly when some character is an ASCII digit |
| Passwords.PasswordRequirements | app/login/register/page.tsx:23-27 | each flag holds exactly when its rule does: eight UTF-16 code units, a capital, a digit |
| Passwords.ValidPasswordShape | app/login/register/page.tsx:29 | a valid password has at least four characters and a capital and a digit at different positions |
| Passwords.RuleExamples | app/login/register/page.tsx:23-29 | "Secreto1" passes; dropping the capital, the digit or the length each fails |
| Register.LocalCheck | app/login/register/page.tsx:35-43 | no error exactly when the two passwords match and the password meets the rules; a mismatch is reported first, then a weak password |
| Register.MismatchBeforeStrength | app/login/register/page.tsx:35-43 | a pair that is both mismatched and weak is reported as mismatched |
| Register.LowerCaseOnlyIsWeak | app/login/register/page.tsx:23-42 | a matching eight-letter lower-case password is refused as weak |
| Register.ProviderMessage | app/login/register/page.tsx:60-66 | a provider error mentioning `already registered` shows the fixed Spanish text; any other is shown as received |
| Register.RegisterOutcome | app/login/register/page.tsx:31-77 | a request goes out exactly when the local checks pass, and otherwise only their error is shown; a sent request shows no error exactly when the provider answered; the success view appears exactly when it was already shown or the answer carried a user |
| Register.RequestIffLocalChecksPass | app/login/register/page.tsx:31-58 | a sign-up request is sent exactly when both local checks pass; a failed local check leaves the success view as it was |
| Register.SuccessOnlyWithUser | app/login/register/page.tsx:60-71 | the success view appears exactly when the local checks pass and the answer carries a user, and then no error is shown |
| Register.RegisterPage.constructor | app/login/register/page.tsx:19-21 | no error, not loading, no success view, no request sent |
| Register.RegisterPage.HandleRegister | app/login/register/page.tsx:31-77 | the error and success view are those RegisterOutcome gives, the request is recorded exactly when it was sent, and loading ends once a request has been made |
| Register.RegisterPage.HandleGoogleRegister | app/login/register/page.tsx:79-94 | a started redirect leaves any earlier error in place; a returned and a thrown error show their own messages |
| ResetPassword.ParamGetFirst | app/login/reset-password/page.tsx:38-40 | a `key=value` pair at the front of the fragment is what `get(key)` returns |
| ResetPassword.ParamGet | app/login/reset-password/page.tsx:38-40 | an empty query has no parameter, and a value found never spans a `&` and is shorter than the query |
| ResetPassword.ParamGetSkip | app/login/reset-password/page.tsx:38-40 | a pair with another name in front is skipped |
| ResetPassword.ContainsSuffix | app/login/reset-password/page.tsx:36 | a text ending in `sub` contains it |
| ResetPassword.PairShape | app/login/reset-password/page.tsx:38-40 | the name of a `name=value` pair is its text before the first `=` |
| ResetPassword.TwoPairs | app/login/reset-password/page.tsx:38-40 | in `k1=v1&k2=v2…` each name finds its own value |
| ResetPassword.FragmentIsRecovery | app/login/reset-password/page.tsx:36 | the fragment of a recovery link is recognised as one |
| ResetPassword.LinkValidity | app/login/reset-password/page.tsx:36-67 | an invalid link becomes valid only through a recovery fragment with both tokens whose session was set; without a recovery fragment a missing session makes it invalid |
| ResetPassword.FragmentTokens | app/login/reset-password/page.tsx:38-40 | the recovery fragment yields exactly its two tokens |
| ResetPassword.TypicalRecoveryFragment | app/login/reset-password/page.tsx:36-44 | a recovery link with two non-empty tokens leads to setting the session |
| ResetPassword.TokensDecideBySetSession | app/login/reset-password/page.tsx:44-67 | with both tokens the link is valid exactly when the session could be set |
| ResetPassword.MissingTokenKeepsFlag | app/login/reset-password/page.tsx:19-44 | a recovery fragment missing a token leaves a fresh screen's link valid |
| ResetPassword.NoFragmentNeedsSession | app/login/reset-password/page.tsx:58-67 | without a recovery fragment the link stays valid exactly when it was and a session exists |
| ResetPassword.SubmitCheck | app/login/reset-password/page.tsx:79-92 | checked in order: a blank field in either box gives the fill-in message, then a mismatch gives the mismatch message, then failed rules give the rules message; no error exactly when the password is not blank, the two fields match and the rules are met |
| ResetPassword.ValidIsNotBlank | app/login/reset-password/page.tsx:22-27 | a password meeting the rules is never blank |
| ResetPassword.SameRulesAsRegistration | app/login/reset-password/page.tsx:79-92 | the reset screen accepts exactly the pairs the sign-up screen accepts |
| ResetPassword.SpacesAreBlank | app/login/reset-password/page.tsx:79-92 | white space alone in either box is reported as not filled in, whatever the other box holds, and such a text would also fail the rules |
| ResetPassword.EnabledButtonPassesRules | app/login/reset-password/page.tsx:237 | with the button enabled the password is not blank, the rule check cannot fail, and the submit passes exactly when the confirmation matches |
| ResetPassword.ResetPasswordPage.constructor | app/login/reset-password/page.tsx:16-20 | no error, not loading, no success, the link presumed valid, the session check pending, no calls made |
| ResetPassword.ResetPasswordPage.HandleAuthSession | app/login/reset-password/page.tsx:29-74 | the check ends; the link flag becomes LinkValidity of the fragment and the two answers, and the session is set with the fragment's two tokens exactly when it carries both |
| ResetPassword.ResetPasswordPage.HandleSubmit | app/login/reset-password/page.tsx:76-116 | a failed check only shows its message; a passing one sends the password once, ends loading, shows the success view on success and otherwise the update's message |
| ResetPassword.UpdateMessage | app/login/reset-password/page.tsx:102-112 | no text on success, the provider's message on an error, the thrown message when it is non-empty, and the fixed text for a throw without one |
| ForgotPassword.LocalPartAt | app/login/forgot-password/page.tsx:22 | the text before an `@` with none in front of it is the local part |
| ForgotPassword.PlainExceptAt | app/login/forgot-password/page.tsx:22 | a text without white space whose only `@` is at `i` is plain everywhere else |
| ForgotPassword.ShapeOfTest | app/login/forgot-password/page.tsx:22-23 | an accepted text has the pattern's shape with its first `@` as the separator |
| ForgotPassword.TestImpliesShape | app/login/forgot-password/page.tsx:22-23 | every accepted text matches `^[^\s@]+@[^\s@]+\.[^\s@]+$` |
| ForgotPassword.ShapeLocalPart | app/login/forgot-password/page.tsx:22 | the `@` of a matching text is its first |
| ForgotPassword.ShapeDomain | app/login/forgot-password/page.tsx:22 | the domain of a matching text has no `@` and a dot with text on both sides |
| ForgotPassword.ShapeImpliesTest | app/login/forgot-password/page.tsx:22-23 | every text matching the pattern is accepted |
| ForgotPassword.EmailTestIffShape | app/login/forgot-password/page.tsx:22-23 | the test accepts exactly the texts the pattern matches |
| ForgotPassword.AcceptedAddressShape | app/login/forgot-password/page.tsx:22-23 | an accepted address has no white space, exactly one `@` (not first), and a dot after the local part and before the last character |
| ForgotPassword.SubmitCheck | app/login/forgot-password/page.tsx:17-26 | a blank address gets the enter-your-address message first; any other that fails the pattern gets the valid-address message; an accepted address matches the pattern |
| ForgotPassword.SurroundingSpaceRejected | app/login/forgot-password/page.tsx:17-23 | an address with a leading or trailing space fails the pattern, which sees the untrimmed text |
| ForgotPassword.SubmitCheckMeaning | app/login/forgot-password/page.tsx:17-26 | a blank address is refused with the first message; any other is refused with the second exactly when it does not match the pattern |
| ForgotPassword.RequestMessage | app/login/forgot-password/page.tsx:36-44 | no text exactly when the mail was sent (or the provider's error has an empty message); a provider error shows its own message; a throw shows its message when non-empty, else the fixed sending-failed text |
| ForgotPassword.ForgotPasswordPage.constructor | app/login/forgot-password/page.tsx:9-12 | no error, not loading, no success, no request made |
| ForgotPassword.ForgotPasswordPage.HandleSubmit | app/login/forgot-password/page.tsx:14-48 | a refused address only shows its message; an accepted one is requested once, loading ends, the success view appears when the mail was sent and otherwise the request's message is shown |
| RouteGuards.RoleGuard | app/admin/page.tsx:154-172 | redirect to `/` exactly when loaded and the role is not admitted; spinner exactly while loading or pending; the screen only for an admitted role, never together with a redirect |
| RouteGuards.AdminDashboardGuard | app/admin/page.tsx:154-172 | redirect exactly when loaded and not GLOBAL_ADMIN; the screen exactly when loaded, fetched and GLOBAL_ADMIN |
| RouteGuards.ContentAdminGuard | app/content-admin/page.tsx:86-102 | redirect exactly when loaded and neither CONTENT_ADMIN nor GLOBAL_ADMIN; spinner exactly while loading |
| RouteGuards.CatalogGuard | app/admin/catalog/page.tsx:45-49 | redirect exactly when loaded and neither GLOBAL_ADMIN nor CONTENT_ADMIN; spinner while the session or the books load |
| RouteGuards.NewBookGuard | app/admin/books/new/page.tsx:60-64 | redirect exactly when loaded and neither GLOBAL_ADMIN nor CONTENT_ADMIN; spinner exactly while loading |
| RouteGuards.CollaboratorGuard | app/colaborador/page.tsx:44-60 | redirect, and the empty view, exactly when loaded with no role: every role is admitted |
| RouteGuards.FetchOnlyWhenAdmitted | app/admin/catalog/page.tsx:78-82 | the catalog and the dashboard fetch only for a visitor they do not redirect |
| RouteGuards.GuardsFollowPermissions | app/admin/page.tsx:155 | the dashboard admits exactly the roles with `manage_settings`, the editorial screens those with `manage_products`, the collaborator screen those with `manage_blog_own` |
| RouteGuards.GuardsNest | app/content-admin/page.tsx:87 | admission nests: dashboard ⊆ new-book = catalog ⊆ content screen ⊆ collaborator screen |
| RouteGuards.NoRedirectWhileLoading | app/colaborador/page.tsx:44-56 | while the session loads no guard redirects and every screen shows its spinner |
| RouteGuards.TurnedAwayKeepsSpinner | app/admin/page.tsx:109-160 | a role that is turned away from the dashboard keeps the spinner: the fetch that would clear `isFetching` never runs |
| AdminDashboard.StatsOf | app/admin/page.tsx:133-137 | users is the profile count; posts and drafts count the published and draft rows (0 without rows), and together never exceed the rows |
| AdminDashboard.StatsCountStatuses | app/admin/page.tsx:134-136 | every published (draft) row is counted, and only rows with that status are |
| AdminDashboard.AdminsTab | app/admin/page.tsx:424-425 | the tab lists only profiles whose role is GLOBAL_ADMIN or CONTENT_ADMIN |
| AdminDashboard.CollaboratorsTab | app/admin/page.tsx:482-483 | the tab lists only profiles whose role is COLLABORATOR |
| AdminDashboard.TabsPartitionProfiles | app/admin/page.tsx:424-483 | the tabs are disjoint; a profile with an enum role is in one of them, one with any other text in neither |
| AdminDashboard.ShowRevoke | app/admin/page.tsx:450 | the button is hidden exactly on the signed-in user's own row |
| AdminDashboard.RecentActivity | app/admin/page.tsx:353 | the first five posts, or all of them when fewer, in order |
| AdminDashboard.Dashboard.constructor | app/admin/page.tsx:106-109 | empty lists, zero statistics, `isFetching` true |
| AdminDashboard.Dashboard.FetchData | app/admin/page.tsx:113-145 | nothing without a user; otherwise each query's rows replace the list when present, statistics follow StatsOf only when both queries completed, and `isFetching` always ends false |
| AdminDashboard.Dashboard.OnSessionChange | app/admin/page.tsx:147-150 | fetches only for GLOBAL_ADMIN; any other role leaves the state, and the spinner, untouched |
| AdminDashboard.LoadingScreenLifecycle | app/admin/page.tsx:147-172 | a fresh dashboard keeps its loading screen exactly when the role is not GLOBAL_ADMIN, whatever the queries would answer |
| CatalogAdmin.ToggledStatus | app/admin/catalog/page.tsx:85 | published becomes draft; anything else, null included, becomes published |
| CatalogAdmin.ToggleTwice | app/admin/catalog/page.tsx:85 | toggling twice restores published or draft; any other status ends as draft |
| CatalogAdmin.WithStatus | app/admin/catalog/page.tsx:99-101 | same length; every book with the id gets the new status, every other book is unchanged |
| CatalogAdmin.WithoutId | app/admin/catalog/page.tsx:125 | exactly the books whose id differs remain |
| CatalogAdmin.WithoutIdKeepsOrder | app/admin/catalog/page.tsx:125 | deletion works segment by segment, so the order is kept, and an unlisted id changes nothing |
| CatalogAdmin.FilteredBooks | app/admin/catalog/page.tsx:133-136 | exactly the books whose lower-cased title or author contains the lower-cased term |
| CatalogAdmin.EmptySearchKeepsAll | app/admin/catalog/page.tsx:133-136 | an empty search shows every book, in order |
| CatalogAdmin.SearchIgnoresTermCase | app/admin/catalog/page.tsx:134-135 | lower-casing the term first changes nothing |
| CatalogAdmin.TitleContainingTermIsFound | app/admin/catalog/page.tsx:134 | a title holding the term verbatim is always found |
| CatalogAdmin.CatalogPage.constructor | app/admin/catalog/page.tsx:39-43 | no books, loading, no error |
| CatalogAdmin.CatalogPage.FetchBooks | app/admin/catalog/page.tsx:52-75 | rows (null as empty) replace the list; a query error or a throw keep it and set their message; loading always ends |
| CatalogAdmin.CatalogPage.TogglePublish | app/admin/catalog/page.tsx:84-107 | only a successful update changes the list, by WithStatus on the toggled status; a failure alerts its message and changes nothing |
| CatalogAdmin.CatalogPage.HandleDelete | app/admin/catalog/page.tsx:110-130 | a declined confirmation does nothing; only a successful delete removes the id; a failure alerts |
| Colaborador.PublishedCount | app/colaborador/page.tsx:73 | the number of published posts, never more than the list |
| Colaborador.DraftCount | app/colaborador/page.tsx:74 | the number of draft posts, never more than the list |
| Colaborador.SampleCounts | app/colaborador/page.tsx:26-74 | on MY_POSTS the screen shows one published post and two drafts |
| Colaborador.CountsFit | app/colaborador/page.tsx:73-74 | published plus drafts never exceed the list |
| Colaborador.StatusBadge | app/colaborador/page.tsx:62-71 | published and draft get their badge; anything else, review included, none |
| Colaborador.ViewLink | app/colaborador/page.tsx:202-215 | the views and the `/blog` link appear exactly for a published post |
| Colaborador.ViewLinkMatchesBadge | app/colaborador/page.tsx:198-215 | a post has the view link exactly when it has the published badge |
| ContentAdmin.StatusBadge | app/content-admin/page.tsx:106-117 | published, draft and review each get their own badge; any other status gets none |
| ContentAdmin.AddButtonFor | app/content-admin/page.tsx:208-217 | hidden on the overview; links to `/editor` exactly in the posts section, elsewhere to `#`; caption by section |
| ContentAdmin.OnlyPostsButtonNavigates | app/content-admin/page.tsx:208-210 | outside the overview the button is shown, and leads somewhere only in the posts section |
| BookEntry.LimitsAreInclusive | app/admin/books/new/page-Ricardo-PC-Test.tsx:94-112 | a cover of exactly 5 MiB and a PDF of exactly 50 MiB pass; one byte more is refused |
| BookEntry.AcceptsCover | components/admin/BookCoverUpload.tsx:21-32 | an accepted cover is at most 5 MiB and never of the PDF type |
| BookEntry.AcceptsPdf | components/admin/BookPdfUpload.tsx:21-32 | an accepted PDF is at most 50 MiB and never of an `image/` type |
| BookEntry.ImageTypeIsNotPdf | components/admin/BookCoverUpload.tsx:24 | a type starting with `image/` is never `application/pdf`, so no file passes both pickers' type tests |
| BookEntry.CoverRejection | app/admin/books/new/page-Ricardo-PC-Test.tsx:87-102 | no message exactly for an `image/` file of at most 5 MiB; a wrong type gets the type message even when the file is also too large, a right type that is too large the size message |
| BookEntry.PdfRejection | app/admin/books/new/page-Ricardo-PC-Test.tsx:105-119 | no message exactly for an `application/pdf` file of at most 50 MiB; the type message takes precedence over the size message |
| BookEntry.RequiredFieldErrors | app/admin/books/new/page.tsx:89-98 | the dictionary's keys are among the five required fields, and a key is present exactly when its field is missing |
| BookEntry.RequiredFieldErrorsMeaning | app/admin/books/new/page.tsx:91-95 | title, author and year are missing when blank after trimming, the category when empty, the cover when no file is chosen; each entry carries that field's own message |
| BookEntry.ValidIffRequiredPresent | app/admin/books/new/page.tsx:97 | the form is valid exactly when all five required fields are present |
| BookEntry.SavedLinks | app/admin/books/new/page.tsx:160 | the saved links are among the input links and have a non-blank URL, and every input link with a non-blank URL is saved |
| BookEntry.SavedLinksAppend | app/admin/books/new/page.tsx:160 | the filter keeps order: saving a list grown by one link saves the old saved links followed by that link when its URL is not blank |
| BookEntry.FileExtension | app/admin/books/new/page.tsx:119-140 | the extension is a suffix of the name without any `.`; a name with no `.` is its own extension |
| BookEntry.TrimmedOrNull | app/admin/books/new/page.tsx:166-172 | a kept text is never empty and never longer than the typed one |
| BookEntry.TrimmedOrNullMeaning | app/admin/books/new/page.tsx:166-172 | `trim() \|\| null` is null exactly for a blank text, else the trimmed text, which is never empty |
| BookEntry.BuildRecord | app/admin/books/new/page.tsx:160-180 | the row is a draft created by the signed-in user, every saved link has a non-blank URL, and a PDF URL is never empty |
| BookEntry.RecordNormalised | app/admin/books/new/page.tsx:160-180 | the inserted row is a draft created by the signed-in user, with trimmed title and author, optional texts null when blank, pages and price null when empty, the PDF URL null when none was obtained, and only links with a URL |
| BookUploads.Handoff | components/admin/BookCoverUpload.tsx:21-32 | a chosen file is handed to the page exactly when it passes the picker's test, and then unchanged; no file, no hand-off |
| BookUploads.HandoffAtTheLimits | components/admin/BookPdfUpload.tsx:21-32 | files of exactly the size limit are handed on, one byte more is dropped, and a PDF type other than `application/pdf` is dropped |
| BookUploads.UploadField.constructor | components/admin/BookCoverUpload.tsx:19 | a picker starts with its input attached and empty and has sent nothing |
| BookUploads.UploadField.HandleChange | components/admin/BookCoverUpload.tsx:21-32 | the page receives one Chosen notice exactly when the hand-off accepts the file; nothing else is sent |
| BookUploads.UploadField.HandleRemove | components/admin/BookPdfUpload.tsx:34-39 | the attached input is cleared, and the page is told of the removal in every case |
| NewBookPage.CaughtMessage | app/admin/books/new/page.tsx:191-194 | the current page reports a thrown error with its message, or "Error desconocido" without one; the earlier page always uses its one fixed message |
| NewBookPage.CoverExtension | app/admin/books/new/page.tsx:118-119 | the earlier page takes the extension from the chosen file's name; the current page from the compressed file's name, which is the chosen name for a cover under 100 KiB |
| NewBookPage.UploadFiles | app/admin/books/new/page.tsx:113-157 | a stopped upload ends saving with exactly one error; a finished one performed one upload per chosen file |
| NewBookPage.InsertStep | app/admin/books/new/page.tsx:160-194 | the insert comes right after the earlier effects; saving stays on exactly when it succeeded, then with no error, and otherwise with exactly one |
| NewBookPage.Proceed | app/admin/books/new/page.tsx:109-194 | after the checks, saving stays on only after a successful insert with no error; any other ending shows exactly one error |
| NewBookPage.Submit | app/admin/books/new/page.tsx:101-195 | an invalid form or a missing user performs nothing and leaves the saving flag; otherwise saving stays on exactly when the insert succeeded and no error remains |
| NewBookPage.NoInsertAppend | app/admin/books/new/page.tsx:117-157 | two effect lists without an insert, run one after the other, have none |
| NewBookPage.UploadFilesOutcome | app/admin/books/new/page.tsx:113-157 | the uploads either stop with exactly one error, saving over and nothing inserted, or reach the insert exactly when every chosen file was uploaded (the cover compressed first on the current page), carrying each URL or "" for a file not chosen; a failed cover upload stops under `cover` before the PDF, and a compression failure stops before any upload |
| NewBookPage.InsertStepOutcome | app/admin/books/new/page.tsx:162-194 | the insert follows the uploads and nothing after it inserts; saving stays on exactly when the insert succeeded, and then the errors are cleared and the page alerts (current page) and navigates to the catalog |
| NewBookPage.RefusedSubmitHasNoEffects | app/admin/books/new/page.tsx:103-107 | an invalid form or a missing user uploads and inserts nothing and leaves the saving flag alone; the errors are the required-field errors, or the sign-in message |
| NewBookPage.CoverFailureStopsEarly | app/admin/books/new/page.tsx:126-130 | a failed cover upload stops before the PDF and the insert, reporting under `cover` with saving over |
| NewBookPage.PdfFailureStopsBeforeInsert | app/admin/books/new/page.tsx:147-151 | a failed PDF upload stops before the insert, reporting under `pdf` with saving over |
| NewBookPage.InsertedRows | app/admin/books/new/page.tsx:162-180 | no more rows than effects |
| NewBookPage.InsertedRowsAppend | app/admin/books/new/page.tsx:162-180 | the rows inserted by two effect lists run in turn are those of the first followed by those of the second |
| NewBookPage.NoInsertMeansNoRows | app/admin/books/new/page.tsx:162-180 | an effect list has no insert exactly when it inserts no row |
| NewBookPage.InsertStepInsertsRecord | app/admin/books/new/page.tsx:162-189 | the last step inserts exactly its record |
| NewBookPage.InsertsAtMostTheDraft | app/admin/books/new/page.tsx:101-195 | whatever the outcomes, at most one row is inserted: the normalised draft from the form, the uploaded URLs and the user's id, and only when the form is complete, a user is signed in and every upload succeeded |
| NewBookPage.InsertNeedsUserAndCover | app/admin/books/new/page.tsx:95-157 | a row is inserted only for a signed-in user whose cover, and PDF if chosen, were uploaded |
| NewBookPage.SuccessfulSubmit | app/admin/books/new/page-Ricardo-PC-Test.tsx:153-251 | when every call succeeds: cover upload, optional PDF upload, the insert, the alert (current page only) and the move to the catalog, in that order, with the errors cleared and saving still on |
| NewBookPage.SavingEndsUnlessInserted | app/admin/books/new/page.tsx:109-193 | once saving starts it stays on exactly when the uploads succeeded and the insert succeeded |
| NewBookPage.NewBookForm.constructor | app/admin/books/new/page.tsx:37-57 | empty fields except the current year, no files, no errors, not saving, the links editor over the initial links with three default rows |
| NewBookPage.NewBookForm.ValidateForm | app/admin/books/new/page.tsx:89-98 | the dictionary is replaced by the required-field errors, and the result says whether all required fields are present |
| NewBookPage.NewBookForm.HandleCoverChange | app/admin/books/new/page.tsx:67-71 | the file and its preview are taken and the cover error is blanked |
| NewBookPage.NewBookForm.HandleCoverSelected | app/admin/books/new/page-Ricardo-PC-Test.tsx:87-102 | a refused cover only sets its message and keeps the previous file; an accepted one replaces the file and preview and blanks the error; no file, no change |
| NewBookPage.NewBookForm.RemoveCover | app/admin/books/new/page-Ricardo-PC-Test.tsx:122-128 | no file and no preview; the earlier page also empties its input |
| NewBookPage.NewBookForm.HandlePdfChange | app/admin/books/new/page.tsx:79-82 | the file is taken and the PDF error is blanked |
| NewBookPage.NewBookForm.HandlePdfSelected | app/admin/books/new/page-Ricardo-PC-Test.tsx:105-119 | a refused PDF only sets its message and keeps the previous file; an accepted one replaces it and blanks the error |
| NewBookPage.NewBookForm.RemovePdf | app/admin/books/new/page-Ricardo-PC-Test.tsx:131-136 | no PDF; the earlier page also empties its input |
| NewBookPage.NewBookForm.UploadStep | app/admin/books/new/page.tsx:113-157 | the step-by-step uploads end where UploadFiles says, and a stop always ends saving |
| NewBookPage.NewBookForm.HandleSubmit | app/admin/books/new/page.tsx:101-195 | the errors, saving flag and new effects are those of the whole submit (whose properties are the lemmas above) |
| NewBookPage.NewBookForm.SaveBook | app/admin/books/new/page.tsx:109-194 | the errors, saving flag and new effects are those of the uploads followed by the insert |
| NewBookPage.NewBookForm.InsertRecord | app/admin/books/new/page.tsx:160-194 | the errors, saving flag and new effects are those of the insert step |
| AffiliateLinks.Values | components/admin/AffiliateLinksSection.tsx:6-9 | the names and URLs the link objects hold, one per object, in order |
| AffiliateLinks.WithoutIndex | components/admin/AffiliateLinksSection.tsx:38 | every element but the one at `index`, in order; an index outside the list removes nothing |
| AffiliateLinks.WithoutIndexDropsOne | components/admin/AffiliateLinksSection.tsx:37-39 | removing a row drops exactly that element: one shorter, same multiset less it, the rest shifted in order |
| AffiliateLinks.RowButtonFor | components/admin/AffiliateLinksSection.tsx:72-92 | rows from `defaultLinksCount` on offer removal; rows before it offer clearing exactly when their URL is non-empty |
| AffiliateLinks.DefaultRowsStay | components/admin/AffiliateLinksSection.tsx:72-92 | a default row can never be removed and a custom row never merely cleared |
| AffiliateLinks.LinksEditor.constructor | components/admin/AffiliateLinksSection.tsx:17-23 | the caller's list and count; both custom inputs empty |
| AffiliateLinks.LinksEditor.UpdateLink | components/admin/AffiliateLinksSection.tsx:25-29 | the list holds the same objects; the edited object's URL is assigned in place (name kept), no other object changes, and on distinct objects the values are the old ones with that row's URL replaced |
| AffiliateLinks.LinksEditor.ClearLink | components/admin/AffiliateLinksSection.tsx:31-35 | the same in-place assignment with the empty URL |
| AffiliateLinks.LinksEditor.UpdateLinkCopy | components/admin/AffiliateLinksSection.tsx:25-29 | corrected update: a fresh object replaces the edited row, no object handed in is changed, and the values are the old ones with that row's URL replaced |
| AffiliateLinks.LinksEditor.RemoveLink | components/admin/AffiliateLinksSection.tsx:37-39 | the list becomes WithoutIndex of the old list; the inputs are kept |
| AffiliateLinks.LinksEditor.AddCustomLink | components/admin/AffiliateLinksSection.tsx:41-47 | with both inputs non-empty a fresh `{name, url}` is appended after the old rows and both inputs reset; otherwise nothing changes |
| AffiliateLinks.LoadDefaultLinks | app/admin/books/new/page.tsx:27-31 | three distinct new objects: Amazon, Casa del Libro and Buscalibre, each with an empty URL |
| AffiliateLinks.RemountKeepsTypedUrl | app/admin/books/new/page.tsx:27-48 | as written: a URL typed on one mount is still shown on the next mount of the form |
| AffiliateLinks.RemountStartsBlank | app/admin/books/new/page.tsx:27-48 | with the copying update, a new mount always starts with the three blank defaults |
| ImageCompression.MergeOptions | lib/imageCompression.ts:13-30 | each setting the caller gives wins; each one it omits takes the default (1200 x 1800, quality 0.85, WebP) |
| ImageCompression.EmptyOptionsGiveDefaults | lib/imageCompression.ts:28-30 | calling without options compresses with exactly the defaults |
| ImageCompression.PresetShapes | lib/imageCompression.ts:127-160 | the cover preset is a portrait box, the post preset a landscape box, the thumbnail preset a square, all WebP |
| ImageCompression.ComputeDimensions | lib/imageCompression.ts:46-58 | the loop-free reassignment of `width` and `height` ends with the dimensions ResizedDimensions specifies |
| ImageCompression.ClampWidth | lib/imageCompression.ts:52-53 | the width is at most the maximum and the original width, the height at most the original, and the aspect ratio is kept |
| ImageCompression.ClampHeight | lib/imageCompression.ts:55-56 | the height is at most the maximum and the original height, the width at most the original, and the aspect ratio is kept |
| ImageCompression.ResizedDimensions | lib/imageCompression.ts:46-58 | neither side grows, the aspect ratio is kept, an oversized landscape image gets exactly the maximum width and any other oversized image exactly the maximum height |
| ImageCompression.AspectKept | lib/imageCompression.ts:46-58 | as written: the result keeps the aspect ratio and never grows, leaves a fitting image alone, and clamps a landscape image's width (any other image's height) to its maximum |
| ImageCompression.ResizeOvershootsBox | lib/imageCompression.ts:48-57 | as written: a 1000 x 1100 cover keeps its width of 1000, wider than the preset's 800 |
| ImageCompression.FitScale | lib/imageCompression.ts:45-58 | the intended scale factor lies in (0, 1] and brings both sides inside the box |
| ImageCompression.FitDimensions | lib/imageCompression.ts:45-58 | corrected resize: both sides fit the box and the aspect ratio is kept |
| ImageCompression.FitDimensionsFitBox | lib/imageCompression.ts:45-58 | the corrected resize keeps the aspect ratio, never enlarges, always fits the box and leaves a fitting image unchanged |
| ImageCompression.Extension | lib/imageCompression.ts:86-87 | the extension is `webp`, `jpg` or `png`, never containing a `.` |
| ImageCompression.RewriteFileName | lib/imageCompression.ts:88 | a name without a `.` is left as it is |
| ImageCompression.RewriteSetsExtension | lib/imageCompression.ts:88 | for a name with a `.` not at its end, everything up to the last `.` is kept and the text after it becomes exactly the new extension |
| ImageCompression.AfterLastOfSuffix | lib/imageCompression.ts:88 | appending a dot-free extension after a `.` makes it the text after the last `.` |
| ImageCompression.CompressImage | lib/imageCompression.ts:26-121 | files under 100 KiB come back unchanged and only they do; any other is re-encoded under the rewritten name and the chosen MIME type, with the dimensions of the code's resize: aspect ratio kept, never larger, unchanged when the image fits, the width of a landscape image clamped to its maximum and the height of any other (so the other side may stay over its maximum) |
| ImageCompression.CompressedCoverName | lib/imageCompression.ts:127-134 | a cover under 100 KiB keeps its name; any other gets the `webp` extension |
| EditorHeader.ElapsedMinutes | components/editor/EditorHeader.tsx:31-32 | the whole minutes elapsed, rounded down (also for a negative difference) |
| EditorHeader.FutureSaveIsNegative | components/editor/EditorHeader.tsx:31-34 | a save stamped in the future gives a negative count, which reads as just saved |
| EditorHeader.FormatBuckets | components/editor/EditorHeader.tsx:28-39 | no save reads as unsaved; under a minute (or in the future) as just saved; one to fifty-nine whole minutes as "Guardado hace m min"; an hour or more as the clock time |
| EditorHeader.FormatLastSaved | components/editor/EditorHeader.tsx:28-39 | "Sin guardar" exactly when nothing was saved, and never the saving notice |
| EditorHeader.OneMinuteMatchesGeneralForm | components/editor/EditorHeader.tsx:35-36 | the one-minute special case reads as the general form would |
| EditorHeader.StatusText | components/editor/EditorHeader.tsx:62-72 | while saving the header says "Guardando...", otherwise the formatted last save |
| EditorHeader.SavingNoticeIsDistinct | components/editor/EditorHeader.tsx:62-72 | the header says "Guardando..." exactly while saving |
| Editor.PageView | app/editor/page.tsx:43-74 | the loading view exactly while the session loads; the denial exactly when loaded without the permission |
| Editor.PublishMessage | app/editor/page.tsx:76-87 | the missing-title alert exactly for a blank title; the missing-content alert exactly for a filled title and blank content |
| Editor.SignedInNeverDenied | app/editor/page.tsx:14-55 | once loaded, any signed-in user reaches the editor and is not redirected |
| Editor.SignedOutDeniedAndRedirected | app/editor/page.tsx:36-74 | once loaded, a signed-out visitor is shown the denial and sent home |
| Editor.PublishChecksInOrder | app/editor/page.tsx:76-87 | a blank title is reported first, then blank content; otherwise the ready message quotes the untrimmed title |
| Editor.Edit | app/editor/page.tsx:24-33 | corrected autosave effect: the flag is up exactly when either text is non-empty, a timer is pending exactly then, and the last save is kept |
| Editor.EditAsWritten | app/editor/page.tsx:24-33 | as written: the last save is kept, a timer is pending exactly when either text is non-empty, and the flag is up when it was already up or either text is non-empty, so clearing both texts does not lower it |
| Editor.TimerFires | app/editor/page.tsx:27-30 | a pending timer lowers the flag and records the save time; with no timer nothing changes |
| Editor.AutosaveKeepsInvariant | app/editor/page.tsx:24-33 | with the corrected effect the flag is only ever up while a timer will lower it, and any edit followed by the timer ends not saving |
| Editor.ClearingLeavesSavingStuck | app/editor/page.tsx:24-33 | as written: typing a title and deleting it before the timer fires leaves the header on "Guardando..." for good |
| Editor.ClearingStopsSaving | app/editor/page.tsx:24-33 | corrected: the same sequence ends idle, with the header reading "Sin guardar" |
| Editor.EditorPage.constructor | app/editor/page.tsx:16-21 | empty title and content, idle autosave, no alert |
| Editor.EditorPage.ChangeText | app/editor/page.tsx:24-33 | the texts are replaced and the autosave moves as the effect is written (EditAsWritten): clearing both texts cancels the timer but leaves the flag as it was |
| Editor.EditorPage.AutosaveElapsed | app/editor/page.tsx:27-30 | the autosave moves as TimerFires says |
| Editor.EditorPage.HandlePublish | app/editor/page.tsx:76-87 | exactly one alert, the one PublishMessage chooses |
| Editor.EditorPage.HandlePreview | app/editor/page.tsx:89-92 | exactly one alert, the fixed preview notice |
| Journal.StripTags | components/Journal.tsx:35 | stripping never lengthens the text |
| Journal.StripKeepsCharacters | components/Journal.tsx:35 | stripping only removes characters; it never introduces one |
| Journal.NoAngleUnchanged | components/Journal.tsx:35 | a text without `<` is left as it is |
| Journal.StripLeavesNoTag | components/Journal.tsx:35 | the stripped text holds no `<…>` with a non-empty body |
| Journal.MapExcerpt | components/Journal.tsx:35 | a missing or empty excerpt becomes null; any other becomes its stripped text, which holds no tag |
| Journal.CategoryOf | components/Journal.tsx:36 | never empty: the first category's name when it is present and non-empty, else "General" |
| Journal.MapNodeFields | components/Journal.tsx:31-39 | a card keeps its node's id, title, slug and date, keeps a tag-free excerpt as is, shows "General" exactly when the first category is missing, empty or so named, and has no cover exactly when the node has none |
| Journal.MapNode | components/Journal.tsx:31-39 | a card keeps its node's id and slug, always has a non-empty category, a tag-free excerpt when it has one, and a non-empty cover URL when it has one |
| Journal.MapPostsKeepsOrder | components/Journal.tsx:31 | one post per node, in the nodes' order |
| Journal.MapPosts | components/Journal.tsx:31-39 | one post per node, each with a non-empty category |
| Journal.ExcerptText | components/Journal.tsx:129 | never empty: the excerpt when it is non-empty, else the fixed text |
| Journal.MarkupOnlyExcerpt | components/Journal.tsx:35 | an excerpt that is markup alone shows the fixed text |
| Journal.Blocks | components/Journal.tsx:59-138 | the spinner exactly while loading; the real posts exactly when loaded with posts; the samples exactly when loaded without |
| Journal.OneBlockAtATime | components/Journal.tsx:83-138 | exactly one of the three blocks is on screen |
| Journal.JournalSection.constructor | components/Journal.tsx:22-23 | no posts, loading |
| Journal.JournalSection.FetchPosts | components/Journal.tsx:26-47 | loading ends; an answer with nodes replaces the posts by their mapping, and anything else leaves them as they were |
| Journal.FailedFetchShowsSamples | components/Journal.tsx:42-60 | a failed request on a fresh section shows the sample posts |
| Catalog.BuiltInShape | constants.ts:19-68 | the built-in catalog has six books with ids 1 to 6, each with a cover |
| Catalog.CardOf | components/Catalog.tsx:46-52 | a card carries the row's id, title, author and category as genre, and its cover or else the placeholder, so never an empty cover |
| Catalog.CardsFollowRows | components/Catalog.tsx:45-52 | one card per row, in the rows' order |
| Catalog.Cards | components/Catalog.tsx:45-52 | one card per row, each with a non-empty cover URL |
| Catalog.DisplayFallback | components/Catalog.tsx:45-53 | with at least one row every card is a database card, one per row; with none the built-in catalog is shown |
| Catalog.DisplayBooks | components/Catalog.tsx:45-53 | the section never shows an empty list; with rows it shows one card per row; every card has a cover |
| Catalog.Heading | components/Catalog.tsx:65 | "Nuestro catálogo" when books were fetched, "Nuestro catálogo inicial" when none were |
| Catalog.CountLineNumber | components/Catalog.tsx:68-71 | one book reads "1 libro publicado…", more read the number and the plural, none the line about the six opening titles |
| Catalog.CountLine | components/Catalog.tsx:68-71 | the line about the six opening titles exactly when no book was fetched; otherwise it starts with the number and ends with " en Ribla Editores." |
| Catalog.CatalogSection.constructor | components/Catalog.tsx:18-19 | no rows, loading |
| Catalog.CatalogSection.FetchBooks | components/Catalog.tsx:21-42 | loading ends; returned rows replace the list, and an error or a throw leaves it as it was |
| Catalog.FailedFetchShowsBuiltIn | components/Catalog.tsx:31-65 | a failed query on a fresh section leaves the built-in catalog and the opening heading on screen |
| Strings.BlankIffTrimEmpty | app/login/forgot-password/page.tsx:17 | `!s.trim()` holds exactly for a text of white space alone, which is how the model states every such check |
| Strings.Trim | app/login/forgot-password/page.tsx:17 | `trim()` is never longer than the text and neither begins nor ends with white space |
| Strings.BeforeFirst | app/login/page.tsx:53 | `split('@')[0]` is a prefix without the separator, ending right before the first separator when there is one |
| Strings.AfterLast | app/admin/books/new/page.tsx:119 | `split('.').pop()` is a suffix without the separator, starting right after the last separator when there is one |
| Strings.ToLowerIdempotent | app/login/page.tsx:46 | lower-casing twice is lower-casing once |
| Strings.ToLower | app/login/page.tsx:46 | `toLowerCase()` keeps the length and maps each character by the case map |
| Strings.Utf16Length | app/login/register/page.tsx:24 | `length` counts between one and two code units per character |
| Seqs.Filter | app/admin/catalog/page.tsx:126 | `filter` keeps only elements that pass, keeps every element that passes, and never lengthens the list |

## Left out

- Every request to Supabase or WordPress: sign-up, sign-in, `setSession`, `exchangeCodeForSession`, `resetPasswordForEmail`, storage uploads, public-URL lookups, table queries and GraphQL. Each is an outcome value the caller passes in, because what the services do is not visible in this repository.
- Server-side query shaping: `limit(6)`, `first: 4`, status filters and ordering happen in the hosted back ends. The models receive the rows those queries return.
- lib/supabaseClient.ts, lib/wordpress.ts, lib/queries.ts, lib/mutations.ts and lib/sanitize.ts are not part of this model. They build clients and query strings, or wrap DOMPurify, and have no decisions of their own.
- app/auth/callback/page.tsx is not part of this model. It is a chain of awaited session calls with a 10 s safety timeout.
- ResetPassword.ParamGet: reads `key=value` pairs split on `&` without percent-decoding and without turning `+` into a space, because the reset link's tokens are plain URL-safe text.
- Strings.LowerChar: lower-cases ASCII and Latin-1 capitals only. The rest of Unicode case mapping is not modelled.
- ImageCompression.CompressImage: dimensions are exact reals. The canvas's truncation of the width and height to whole pixels is not modelled. FileReader, Image decoding, canvas drawing, `toBlob` and the logged percentage are browser work and are not modelled. A failure of any of them is the single outcome `Threw` of the cover compression on the new-book page (`NewBookPage.Compression`).
- Clocks: `Date`, `Date.now()`, `toLocaleTimeString` and `toLocaleDateString` are inputs, or are left out where they only format text. Post dates are kept as the text the service returns.
- Timers: the editor's autosave is the explicit step `Editor.EditorPage.AutosaveElapsed`, and the session provider's wait is the flag `delayCompleted` of `AuthContext.AuthProvider.InitSession`. Their lengths (1.5 s, 500 ms) are not modelled, and neither is the reset screen's 3 s redirect to `/login`.
- `Math.random()` and `Date.now()` in uploaded file names are not modelled. An upload is recorded by its file extension only.
- `parseInt` and `parseFloat` on the page count and price fields: the record keeps those fields as the typed text, or null when it is empty.
- `alert` is a list of messages on the page object. `confirm` is a boolean input.
- `console.log` and `console.error` calls are not modelled.
- The markup each screen renders is not modelled, except for the decisions it is built from: badges, buttons, headings, counts and which view is shown.
- Journal.CategoryOf: the optional chain `node.categories?.nodes[0]?.name` (components/Journal.tsx:36) is one optional list of category nodes here. A `categories` object present without `nodes` makes the source throw a TypeError, which its `catch` swallows so that the sample posts stay. That case is not modelled.
- The `year` field of the built-in catalog in constants.ts is not modelled, because no modelled decision reads it.
- The sample journal posts' texts are not modelled. The fallback only needs to know that the list is not empty.
- Races between requests still in flight, and React's re-render scheduling, are not modelled. Each handler runs to completion with its outcomes given.
- The Hero counter, the blog scroll bar, and the tiptap editor with its toolbar are presentation or third-party code, and are not modelled.

## Findings

| source | as written | input that shows it | evidently intended | confidence | as-written member | corrected member |
|---|---|---|---|---|---|---|
| lib/imageCompression.ts:48-57 | a landscape image is clamped only by width and any other image only by height, so the other side can stay over its maximum | a 1000 x 1100 cover under the 800 x 1200 cover preset stays 1000 wide | both sides within the box, aspect ratio kept | high, not executed | ImageCompression.ResizeOvershootsBox | ImageCompression.FitDimensionsFitBox |
| app/admin/books/new/page.tsx:27-31 | `updateLink` copies the array shallowly and assigns the URL on the module-level default link objects, so the defaults themselves change | type an Amazon URL, leave the form, open it again: the URL is still there | each visit starts with blank default links | medium, not executed | AffiliateLinks.RemountKeepsTypedUrl | AffiliateLinks.RemountStartsBlank |
| app/editor/page.tsx:24-33 | the effect sets the saving flag only when there is content, and clearing both texts cancels the pending timer without clearing the flag | type a title, then clear the title and the body: the header says "Guardando..." for good | no saving state without a save pending | high, not executed | Editor.ClearingLeavesSavingStuck | Editor.ClearingStopsSaving |
