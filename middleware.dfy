/**
 * The edge middleware (middleware.ts): requests under `/admin` or `/editor`
 * without a `wp_token` cookie are sent to `/login`; everything else passes.
 * Its `config.matcher` decides which paths the middleware runs on at all.
 */
module Middleware {
  import opened Wrappers
  import opened Strings

  datatype Url = Url(origin: string, pathname: string, search: string)

  /** The parts of a request the middleware reads: its URL and the value of
      the `wp_token` cookie, when the cookie is present. */
  datatype Request = Request(url: Url, wpToken: Option<string>)

  /** `NextResponse.next()` or `NextResponse.redirect(url)`. */
  datatype Response = Next | Redirect(location: Url)

  /** The raw prefix test on the path. */
  predicate IsProtected(path: string)
    ensures IsProtected(path) ==> |path| >= 6 && path[0] == '/'
    ensures StartsWith(path, "/admin/") || StartsWith(path, "/editor/") ==> IsProtected(path)
  {
    StartsWith(path, "/admin") || StartsWith(path, "/editor")
  }

  /** `!token` is false only for a present, non-empty cookie value. */
  predicate HasToken(token: Option<string>) {
    token.Some? && token.value != ""
  }

  /** middleware(request). */
  function HandleRequest(req: Request): (r: Response)
    ensures r.Redirect? <==> IsProtected(req.url.pathname) && !HasToken(req.wpToken)
    ensures r.Redirect? ==> r.location == req.url.(pathname := "/login")
  {
    if IsProtected(req.url.pathname) && !HasToken(req.wpToken) then
      Redirect(req.url.(pathname := "/login"))
    else
      Next
  }

  /** Protection is a prefix test on the text, not on path segments. */
  lemma ProtectionIsRawPrefix()
    ensures IsProtected("/admin") && IsProtected("/admin/catalog") && IsProtected("/editor")
    ensures IsProtected("/administrator") && IsProtected("/editorial")
    ensures !IsProtected("/login") && !IsProtected("/") && !IsProtected("/blog/admin")
  {
    assert "/login"[1] != "/admin"[1] && "/login"[1] != "/editor"[1];
    assert "/blog/admin"[1] != "/admin"[1] && "/blog/admin"[1] != "/editor"[1];
  }

  /** A protected path without a token is redirected to `/login` on the same
      origin with the same query. */
  lemma NoTokenGoesToLogin(req: Request)
    requires IsProtected(req.url.pathname) && req.wpToken.None?
    ensures HandleRequest(req) == Redirect(Url(req.url.origin, "/login", req.url.search))
  {
  }

  /** An empty cookie value is treated like a missing one. */
  lemma EmptyTokenGoesToLogin(url: Url)
    requires IsProtected(url.pathname)
    ensures HandleRequest(Request(url, Some(""))) == Redirect(url.(pathname := "/login"))
  {
  }

  /** Any non-empty token lets every path through; no role is looked at. */
  lemma TokenPassesEverything(url: Url, token: string)
    requires token != ""
    ensures HandleRequest(Request(url, Some(token))) == Next
  {
  }

  /** An unprotected path passes whether or not a token is present. */
  lemma UnprotectedPasses(url: Url, token: Option<string>)
    requires !IsProtected(url.pathname)
    ensures HandleRequest(Request(url, token)) == Next
  {
  }

  /** `.*\.(?:svg|png|jpg|jpeg|gif|webp)$`. */
  predicate HasImageExtension(rest: string) {
    EndsWith(rest, ".svg") || EndsWith(rest, ".png") || EndsWith(rest, ".jpg")
    || EndsWith(rest, ".jpeg") || EndsWith(rest, ".gif") || EndsWith(rest, ".webp")
  }

  /** Each alternative of the lookahead needs a leading `_` or `f`, or a `.`
      somewhere in the path. */
  lemma ExclusionsNeedUnderscoreOrDot(rest: string)
    ensures StartsWith(rest, "_next/static") || StartsWith(rest, "_next/image") ==> |rest| >= 4 && rest[0] == '_'
    ensures HasImageExtension(rest) ==> |rest| >= 4 && '.' in rest
  {
    if StartsWith(rest, "_next/static") || StartsWith(rest, "_next/image") {
      assert rest[0] == rest[..5][0];
    }
    if HasImageExtension(rest) {
      if EndsWith(rest, ".svg") { EndsWithDotted(rest, ".svg"); }
      else if EndsWith(rest, ".png") { EndsWithDotted(rest, ".png"); }
      else if EndsWith(rest, ".jpg") { EndsWithDotted(rest, ".jpg"); }
      else if EndsWith(rest, ".jpeg") { EndsWithDotted(rest, ".jpeg"); }
      else if EndsWith(rest, ".gif") { EndsWithDotted(rest, ".gif"); }
      else { EndsWithDotted(rest, ".webp"); }
    }
  }

  lemma EndsWithDotted(s: string, suffix: string)
    requires EndsWith(s, suffix) && |suffix| >= 4 && suffix[0] == '.'
    ensures |s| >= 4 && '.' in s
  {
    assert s[|s| - |suffix|] == s[|s| - |suffix|..][0];
  }

  /** The negative lookahead of the matcher, applied to the path after its
      leading `/`. The unescaped `.` in `favicon.ico` matches any character. */
  predicate ExcludedByMatcher(rest: string)
    ensures ExcludedByMatcher(rest) ==> |rest| >= 4 && (rest[0] == '_' || rest[0] == 'f' || '.' in rest)
  {
    ExclusionsNeedUnderscoreOrDot(rest);
    || StartsWith(rest, "_next/static")
    || StartsWith(rest, "_next/image")
    || (|rest| >= 11 && rest[..7] == "favicon" && rest[8..11] == "ico")
    || HasImageExtension(rest)
  }

  /** `config.matcher`: the paths on which the middleware runs. */
  predicate MatcherSelects(path: string) {
    |path| >= 1 && path[0] == '/' && !ExcludedByMatcher(path[1..])
  }

  /** What the application answers at the edge: the middleware where the
      matcher selects the path, a pass-through elsewhere. */
  function Edge(req: Request): (r: Response)
    ensures r.Redirect? ==> MatcherSelects(req.url.pathname) && HandleRequest(req) == r
    ensures !MatcherSelects(req.url.pathname) ==> r == Next
  {
    if MatcherSelects(req.url.pathname) then HandleRequest(req) else Next
  }

  /** Build output and optimised images never reach the middleware. */
  lemma {:induction false} MatcherSkipsNextAssets(path: string)
    requires StartsWith(path, "/_next/static") || StartsWith(path, "/_next/image")
    ensures !MatcherSelects(path)
  {
    var rest := path[1..];
    if StartsWith(path, "/_next/static") {
      assert rest[..12] == path[1..13] == "_next/static";
    } else {
      assert rest[..11] == path[1..12] == "_next/image";
    }
  }

  /** `/favicon.ico`, and any path that merely starts with `favicon`, one
      character and `ico`, never reaches the middleware. */
  lemma {:induction false} MatcherSkipsFavicon(path: string)
    requires |path| >= 12 && path[..8] == "/favicon" && path[9..12] == "ico"
    ensures !MatcherSelects(path)
  {
    var rest := path[1..];
    assert rest[..7] == path[..8][1..] == "favicon";
    assert rest[8..11] == path[9..12] by {
      forall k | 0 <= k < 3
        ensures rest[8..11][k] == path[9..12][k]
      {
        assert rest[8 + k] == path[9 + k];
      }
    }
    assert ExcludedByMatcher(rest);
  }

  /** A path whose text after the slash has no `.` and does not begin with
      `_` or `f` always reaches the middleware. */
  lemma {:induction false} MatcherSelectsPlainPaths(path: string)
    requires |path| >= 2 && path[0] == '/' && path[1] != '_' && path[1] != 'f'
    requires forall k :: 1 <= k < |path| ==> path[k] != '.'
    ensures MatcherSelects(path)
  {
    var rest := path[1..];
    assert rest[0] != '_' && rest[0] != 'f';
    assert forall k :: 0 <= k < |rest| ==> rest[k] != '.';
    assert !StartsWith(rest, "_next/static") && !StartsWith(rest, "_next/image");
    assert |rest| >= 4 ==> rest[|rest| - 4..][0] != '.';
    assert |rest| >= 5 ==> rest[|rest| - 5..][0] != '.';
  }

  /** The protected screens themselves are always subject to the middleware. */
  lemma MatcherSelectsProtectedRoots()
    ensures MatcherSelects("/admin") && MatcherSelects("/editor")
  {
    MatcherSelectsPlainPaths("/admin");
    MatcherSelectsPlainPaths("/editor");
  }

  /** Because the image test looks only at the end of the path, an image file
      under `/admin` is served without a token. */
  lemma ImagesUnderAdminBypass(url: Url)
    requires StartsWith(url.pathname, "/admin/") && EndsWith(url.pathname, ".png")
    ensures Edge(Request(url, None)) == Next
  {
    var rest := url.pathname[1..];
    assert rest[|rest| - 4..] == url.pathname[|url.pathname| - 4..];
  }
}
