/**
 * The e-mail sign-in of the login screen (app/login/page.tsx): a WordPress
 * GraphQL login whose answer is turned into the stored `wp_user` record, the
 * `wp_token` item and cookie, and a move to `/admin`; every failure becomes
 * one message. The Google button only reports whether the redirect could be
 * started.
 */
module Login {
  import opened Wrappers
  import opened Strings
  import Auth

  /** `roles.nodes[i]`: a role node, whose name may be missing. */
  datatype RoleNode = RoleNode(name: Option<string>)

  /** The `user` of the login answer; each field may be missing. */
  datatype WpUser = WpUser(id: Option<string>, name: Option<string>, email: Option<string>,
                           roles: Option<seq<RoleNode>>)

  /** `data.login`: the token (possibly missing) and the user. */
  datatype LoginPayload = LoginPayload(authToken: Option<string>, user: Option<WpUser>)

  /** What `wpClient.request` does: answer with `data` (whose `login` may be
      missing), or throw an error with a message (possibly missing). */
  datatype LoginResponse = Answered(login: Option<LoginPayload>) | Failed(message: Option<string>)

  /** `x || fallback` on an optional text: a missing or empty text is falsy. */
  function OrElse(x: Option<string>, fallback: string): (r: string)
    ensures x.Some? && x.value != "" ==> r == x.value
    ensures x.None? || x.value == "" ==> r == fallback
  {
    if x.Some? && x.value != "" then x.value else fallback
  }

  /** `wpUser.roles?.nodes[0]?.name?.toLowerCase()`. */
  function FirstRoleName(u: WpUser): (r: Option<string>)
    ensures r.Some? <==> u.roles.Some? && |u.roles.value| > 0 && u.roles.value[0].name.Some?
    ensures r.Some? ==> r.value == ToLower(u.roles.value[0].name.value)
  {
    match u.roles
    case None => None
    case Some(nodes) =>
      if |nodes| == 0 then None
      else match nodes[0].name
        case None => None
        case Some(n) => Some(ToLower(n))
  }

  /** The role text stored for the signed-in user. */
  function MapWpRole(roleName: Option<string>): (role: string)
    ensures role == "GLOBAL_ADMIN" <==> roleName == Some("administrator")
    ensures role == "EDITOR" <==> roleName == Some("editor")
    ensures role == "COLLABORATOR" <==> roleName != Some("administrator") && roleName != Some("editor")
  {
    var role := "COLLABORATOR";
    var role := if roleName == Some("administrator") then "GLOBAL_ADMIN" else role;
    if roleName == Some("editor") then "EDITOR" else role
  }

  /** The WordPress `editor` role becomes a role text that is not one of the
      application's three roles, so nothing in the permission table applies
      to such a user. */
  lemma EditorRoleIsOutsideTheEnum()
    ensures MapWpRole(Some("editor")) == "EDITOR"
    ensures Auth.ParseRole(MapWpRole(Some("editor"))).None?
    ensures Auth.PermissionsForName(MapWpRole(Some("editor"))).None?
  {
  }

  /** The other two outcomes name real roles. */
  lemma OtherRolesAreInTheEnum(roleName: Option<string>)
    requires roleName != Some("editor")
    ensures Auth.ParseRole(MapWpRole(roleName)).Some?
    ensures roleName == Some("administrator") ==> Auth.ParseRole(MapWpRole(roleName)) == Some(Auth.GlobalAdmin)
    ensures roleName != Some("administrator") ==> Auth.ParseRole(MapWpRole(roleName)) == Some(Auth.Collaborator)
  {
  }

  /** Only the first role node counts, and its name is compared lower-cased. */
  lemma OnlyFirstRoleCounts(u: WpUser, first: RoleNode, rest1: seq<RoleNode>, rest2: seq<RoleNode>)
    ensures MapWpRole(FirstRoleName(u.(roles := Some([first] + rest1))))
            == MapWpRole(FirstRoleName(u.(roles := Some([first] + rest2))))
  {
  }

  /** The role name's capitalisation never matters: a node named `n` maps
      to the same role as one named `n` already lower-cased, so
      `Administrator` and `ADMINISTRATOR` both give the global admin. */
  lemma RoleCaseIgnored(u: WpUser, n: string, rest: seq<RoleNode>)
    ensures MapWpRole(FirstRoleName(u.(roles := Some([RoleNode(Some(n))] + rest))))
            == MapWpRole(FirstRoleName(u.(roles := Some([RoleNode(Some(ToLower(n)))] + rest))))
  {
    ToLowerIdempotent(n);
  }

  /** The `userData` object written as `wp_user`. */
  datatype UserData = UserData(id: string, name: string, email: string, role: string)

  /** userData: each field from the WordPress user, else its fallback. */
  function BuildUserData(u: WpUser, typedEmail: string): (d: UserData)
    ensures d.role == MapWpRole(FirstRoleName(u))
    ensures d.id == OrElse(u.id, "wp-id")
    ensures d.name == OrElse(u.name, BeforeFirst(typedEmail, '@'))
    ensures d.email == OrElse(u.email, typedEmail)
  {
    UserData(OrElse(u.id, "wp-id"), OrElse(u.name, BeforeFirst(typedEmail, '@')),
             OrElse(u.email, typedEmail), MapWpRole(FirstRoleName(u)))
  }

  /** Without a name, the displayed name is the typed e-mail's local part:
      never containing an `@`, and a prefix of the typed text. */
  lemma NameFallsBackToLocalPart(u: WpUser, typedEmail: string)
    requires u.name.None? || u.name == Some("")
    ensures var n := BuildUserData(u, typedEmail).name;
            '@' !in n && n == typedEmail[..|n|]
            && (|n| < |typedEmail| ==> typedEmail[|n|] == '@')
  {
  }

  const InvalidCredentials := "Credenciales inválidas"
  const UserNotFound := "Usuario no encontrado"
  const WrongPassword := "Contraseña incorrecta"
  const GenericLoginError := "Error al iniciar sesión. Verifica tus credenciales."

  /** The `catch` block's message for an error whose message is `m`. */
  function LoginErrorMessage(m: Option<string>): (msg: string)
    ensures m.Some? && Contains(m.value, "invalid_username") ==> msg == UserNotFound
    ensures m.Some? && !Contains(m.value, "invalid_username") && Contains(m.value, "incorrect_password")
            ==> msg == WrongPassword
    ensures (m.None? || (!Contains(m.value, "invalid_username") && !Contains(m.value, "incorrect_password")))
            ==> msg == GenericLoginError
  {
    if m.Some? && m.value != "" && Contains(m.value, "invalid_username") then UserNotFound
    else if m.Some? && m.value != "" && Contains(m.value, "incorrect_password") then WrongPassword
    else GenericLoginError
  }

  /** An error mentioning both causes is reported as an unknown user. */
  lemma UnknownUserWins(m: string)
    requires Contains(m, "invalid_username") && Contains(m, "incorrect_password")
    ensures LoginErrorMessage(Some(m)) == UserNotFound
  {
  }

  const CookiePrefix := "wp_token="
  /** The cookie lives for a day (86400 seconds), on every path, same-site only. */
  const CookieAttributes := "; path=/; max-age=86400; SameSite=Strict"

  /** The cookie line written on success; the token sits between the name
      and the attributes and can be read back from it. */
  function TokenCookie(token: string): (c: string)
    ensures |c| == |CookiePrefix| + |token| + |CookieAttributes|
    ensures StartsWith(c, CookiePrefix) && EndsWith(c, CookieAttributes)
    ensures c[|CookiePrefix|..|c| - |CookieAttributes|] == token
  {
    var c := CookiePrefix + token + CookieAttributes;
    assert c[..|CookiePrefix|] == CookiePrefix;
    assert c[|c| - |CookieAttributes|..] == CookieAttributes;
    assert c[|CookiePrefix|..|c| - |CookieAttributes|] == token;
    c
  }

  /** How handleEmailLogin ends: signed in with a token and a user record,
      or with an error message. */
  datatype LoginResult = SignedIn(token: string, user: UserData) | Refused(message: string)

  /** handleEmailLogin's decision. A present token without a user makes
      reading `wpUser.roles` throw, and that error names neither cause. */
  function EmailLogin(typedEmail: string, response: LoginResponse): (r: LoginResult)
    ensures response.Failed? ==> r == Refused(LoginErrorMessage(response.message))
    ensures r.Refused? ==> r.message in {InvalidCredentials, UserNotFound, WrongPassword, GenericLoginError}
    ensures r.SignedIn? ==>
              && response.Answered? && response.login.Some? && response.login.value.user.Some?
              && response.login.value.authToken == Some(r.token) && r.token != ""
              && r.user == BuildUserData(response.login.value.user.value, typedEmail)
  {
    match response
    case Failed(m) => Refused(LoginErrorMessage(m))
    case Answered(login) =>
      if login.None? || login.value.authToken.None? || login.value.authToken.value == "" then
        Refused(InvalidCredentials)
      else if login.value.user.None? then
        Refused(GenericLoginError)
      else
        SignedIn(login.value.authToken.value, BuildUserData(login.value.user.value, typedEmail))
  }

  /** Signing in succeeds exactly when the answer carries a non-empty token
      and a user; the token kept is the one received. */
  lemma SignedInIffTokenAndUser(typedEmail: string, response: LoginResponse)
    ensures EmailLogin(typedEmail, response).SignedIn? <==>
              && response.Answered? && response.login.Some?
              && response.login.value.authToken.Some? && response.login.value.authToken.value != ""
              && response.login.value.user.Some?
    ensures EmailLogin(typedEmail, response).SignedIn? ==>
              EmailLogin(typedEmail, response).token == response.login.value.authToken.value
  {
  }

  /** An answer without a token is refused as invalid credentials. */
  lemma MissingTokenIsInvalidCredentials(typedEmail: string, login: Option<LoginPayload>)
    requires login.None? || login.value.authToken.None? || login.value.authToken == Some("")
    ensures EmailLogin(typedEmail, Answered(login)) == Refused(InvalidCredentials)
  {
  }

  /** What the browser keeps: the two local-storage items, the cookie and
      the page it was sent to. */
  datatype Stored = TokenItem(token: string) | UserItem(user: UserData)

  /** The login screen's state. */
  class LoginPage {
    var error: Option<string>
    var isLoading: bool
    var isGoogleLoading: bool
    var storage: map<string, Stored>
    var cookie: Option<string>
    var location: Option<string>

    constructor (storage: map<string, Stored>)
      ensures error.None? && !isLoading && !isGoogleLoading
      ensures this.storage == storage && cookie.None? && location.None?
    {
      error := None;
      isLoading := false;
      isGoogleLoading := false;
      this.storage := storage;
      cookie := None;
      location := None;
    }

    /** handleEmailLogin with the server's response supplied. */
    method HandleEmailLogin(typedEmail: string, response: LoginResponse)
      modifies this`error, this`isLoading, this`storage, this`cookie, this`location
      ensures !isLoading
      ensures match EmailLogin(typedEmail, response)
              case SignedIn(token, user) =>
                && error.None?
                && storage == old(storage)["wp_token" := TokenItem(token)]["wp_user" := UserItem(user)]
                && cookie == Some(TokenCookie(token)) && location == Some("/admin")
              case Refused(message) =>
                && error == Some(message)
                && storage == old(storage) && cookie == old(cookie) && location == old(location)
    {
      error := None;
      isLoading := true;
      match response {
        case Failed(m) =>
          error := Some(LoginErrorMessage(m));
        case Answered(login) =>
          if login.Some? && login.value.authToken.Some? && login.value.authToken.value != "" {
            var token := login.value.authToken.value;
            match login.value.user {
              case None =>
                error := Some(GenericLoginError);
              case Some(wpUser) =>
                var userData := BuildUserData(wpUser, typedEmail);
                storage := storage["wp_token" := TokenItem(token)];
                storage := storage["wp_user" := UserItem(userData)];
                cookie := Some(TokenCookie(token));
                location := Some("/admin");
            }
          } else {
            error := Some(InvalidCredentials);
          }
      }
      isLoading := false;
    }

    /** handleGoogleLogin with the outcome of starting the OAuth redirect. */
    method HandleGoogleLogin(outcome: GoogleStart)
      modifies this`error, this`isGoogleLoading
      ensures !isGoogleLoading
      ensures error == GoogleMessage(outcome)
    {
      error := None;
      isGoogleLoading := true;
      match outcome {
        case Started =>
        case StartError =>
          error := Some("Error al conectar con Google");
        case StartThrew =>
          error := Some("Error al iniciar sesión con Google");
      }
      isGoogleLoading := false;
    }
  }

  /** `signInWithOAuth`: started, answered with an error, or threw. */
  datatype GoogleStart = Started | StartError | StartThrew

  /** The Google button's message: none when the redirect started, and a
      different one for a returned error and for a thrown one. */
  function GoogleMessage(outcome: GoogleStart): (m: Option<string>)
    ensures m.None? <==> outcome == Started
    ensures outcome == StartError ==> m == Some("Error al conectar con Google")
    ensures outcome == StartThrew ==> m == Some("Error al iniciar sesión con Google")
  {
    match outcome
    case Started => None
    case StartError => Some("Error al conectar con Google")
    case StartThrew => Some("Error al iniciar sesión con Google")
  }
}
