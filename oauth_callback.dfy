/**
 * The OAuth and e-mail-link callback (app/auth/callback/route.ts): an
 * ordered chain of checks on the query string that picks where to send the
 * browser. The code exchange with the identity provider is an input.
 */
module OAuthCallback {
  import opened Wrappers
  import opened UriEncoding

  /** The query parameters the route reads; `searchParams.get` yields null for
      a missing parameter. */
  datatype CallbackQuery = CallbackQuery(
    code: Option<string>,
    error: Option<string>,
    errorDescription: Option<string>,
    kind: Option<string>)   // the `type` parameter

  /** What `exchangeCodeForSession(code)` reports. */
  datatype ExchangeOutcome = ExchangeOk | ExchangeFailed(message: string)

  /** A redirect target: `new URL(pathAndQuery, origin)`. */
  datatype Location = Location(origin: string, path: string, query: string)

  /** JavaScript truthiness of a possibly-null string. */
  predicate Truthy(v: Option<string>) {
    v.Some? && v.value != ""
  }

  /** `errorDescription || error`, used only once `error` is truthy. */
  function ErrorText(q: CallbackQuery): (t: string)
    requires Truthy(q.error)
    ensures t != ""
    ensures Truthy(q.errorDescription) ==> t == q.errorDescription.value
    ensures !Truthy(q.errorDescription) ==> t == q.error.value
  {
    if Truthy(q.errorDescription) then q.errorDescription.value else q.error.value
  }

  function LoginWithError(origin: string, message: string): (l: Location)
    ensures l.origin == origin && l.path == "/login"
    ensures l.query == "error=" + EncodeUriComponent(message)
  {
    Location(origin, "/login", "error=" + EncodeUriComponent(message))
  }

  /** GET: the provider's error first, then the exchange (only when a code is
      present), then the recovery flow, and `/admin` otherwise. */
  function Callback(origin: string, q: CallbackQuery, exchange: ExchangeOutcome): (l: Location)
    ensures l.origin == origin
    ensures l.path in {"/login", "/login/reset-password", "/admin"}
    ensures Truthy(q.error) ==> l == LoginWithError(origin, ErrorText(q))
    ensures !Truthy(q.error) && Truthy(q.code) && exchange.ExchangeFailed?
            ==> l == LoginWithError(origin, exchange.message)
    ensures l.path == "/login/reset-password" <==>
            !Truthy(q.error) && !(Truthy(q.code) && exchange.ExchangeFailed?) && q.kind == Some("recovery")
    ensures l.path == "/admin" <==>
            !Truthy(q.error) && !(Truthy(q.code) && exchange.ExchangeFailed?) && q.kind != Some("recovery")
    ensures l.path != "/login" ==> l.query == ""
  {
    if Truthy(q.error) then LoginWithError(origin, ErrorText(q))
    else if Truthy(q.code) && exchange.ExchangeFailed? then LoginWithError(origin, exchange.message)
    else if q.kind == Some("recovery") then Location(origin, "/login/reset-password", "")
    else Location(origin, "/admin", "")
  }

  /** The provider's error wins: the code is never looked at. */
  lemma ErrorWinsOverCode(origin: string, q: CallbackQuery, e1: ExchangeOutcome, e2: ExchangeOutcome)
    requires Truthy(q.error)
    ensures Callback(origin, q, e1) == Callback(origin, q, e2)
    ensures Callback(origin, q, e1).path == "/login"
  {
  }

  /** Without a code the exchange outcome is irrelevant, and the absence of a
      code is not treated as an error. */
  lemma MissingCodeIsNotAnError(origin: string, q: CallbackQuery, e: ExchangeOutcome)
    requires !Truthy(q.error) && !Truthy(q.code)
    ensures Callback(origin, q, e) == Callback(origin, q, ExchangeOk)
    ensures Callback(origin, q, e).path != "/login"
  {
  }

  /** The error parameter of every `/login` redirect decodes to the UTF-8 bytes
      of the message it carries, and it is the only parameter in the query. */
  lemma ErrorParameterIsFaithful(origin: string, q: CallbackQuery, e: ExchangeOutcome)
    requires Callback(origin, q, e).path == "/login"
    ensures var l := Callback(origin, q, e);
            var msg := if Truthy(q.error) then ErrorText(q) else e.message;
            l.query == "error=" + EncodeUriComponent(msg)
            && DecodeToBytes(l.query[6..]) == AsInts(Utf8String(msg))
            && '&' !in l.query[6..]
  {
    var l := Callback(origin, q, e);
    var msg := if Truthy(q.error) then ErrorText(q) else e.message;
    assert l.query[6..] == EncodeUriComponent(msg);
    DecodeEncode(msg);
    NoQuerySeparators(msg);
  }
}
