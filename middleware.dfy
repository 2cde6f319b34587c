/**
 * The route guard of `middleware.ts`: which requests it sees (the path
 * matcher of its config), and for those, whether the request passes, is
 * sent to the login page with a callback, or is sent on to the chat page.
 */
module Middleware {
  import opened Wrappers

  /** The guard's answer. */
  datatype Decision =
    | Pass                             // NextResponse.next()
    | ToLogin(callbackUrl: string)     // redirect to /login?callbackUrl=...
    | ToChat                           // redirect to /chat

  /** The pages open without a session; membership is exact string equality. */
  const PublicPaths: seq<string> := ["/login", "/register", "/forgot-password"]

  /** Both cookies are present and non-empty (`sessionToken && userId`). */
  predicate IsAuthenticated(sessionToken: Option<string>, userId: Option<string>) {
    sessionToken.Some? && sessionToken.value != "" && userId.Some? && userId.value != ""
  }

  predicate StartsWith(s: string, prefix: string) {
    prefix <= s
  }

  predicate EndsWith(s: string, suffix: string) {
    |suffix| <= |s| && s[|s| - |suffix|..] == suffix
  }

  /**
   * The matcher `/((?!api|_next/static|_next/image|favicon.ico|.*\.png$).*)`:
   * a path reaches the guard unless what follows its leading "/" starts with
   * one of the excluded prefixes or ends in ".png". `favicon.ico` is a regular
   * expression, so its "." matches any character.
   */
  predicate Matched(path: string) {
    && |path| >= 1 && path[0] == '/'
    && var rest := path[1..];
      && !StartsWith(rest, "api")
      && !StartsWith(rest, "_next/static")
      && !StartsWith(rest, "_next/image")
      && !(|rest| >= 11 && rest[..7] == "favicon" && rest[8..11] == "ico")
      && !EndsWith(rest, ".png")
  }

  /**
   * `middleware`: an unauthenticated request for a page that is neither
   * public nor "/" goes to the login page with the request URL as callback;
   * an authenticated request for a public page goes to the chat page; every
   * other request passes.
   */
  function Decide(sessionToken: Option<string>, userId: Option<string>, path: string, requestUrl: string)
    : (d: Decision)
    ensures d.ToLogin? ==> d.callbackUrl == requestUrl
  {
    var authenticated := IsAuthenticated(sessionToken, userId);
    if !authenticated && path !in PublicPaths && path != "/" then ToLogin(requestUrl)
    else if authenticated && path in PublicPaths then ToChat
    else Pass
  }

  /**
   * The middleware as it runs: a request the matcher leaves out is never
   * guarded, so a redirect needs a matched path as well as the guard's
   * condition.
   */
  function Guard(sessionToken: Option<string>, userId: Option<string>, path: string, requestUrl: string)
    : (d: Decision)
    ensures d.ToLogin? <==>
      Matched(path) && !IsAuthenticated(sessionToken, userId) && path !in PublicPaths && path != "/"
    ensures d.ToChat? <==> Matched(path) && IsAuthenticated(sessionToken, userId) && path in PublicPaths
    ensures d.ToLogin? ==> d.callbackUrl == requestUrl
  {
    if Matched(path) then Decide(sessionToken, userId, path, requestUrl) else Pass
  }

  /** The login redirect happens exactly for unauthenticated requests to protected pages. */
  lemma LoginRedirectExactly(sessionToken: Option<string>, userId: Option<string>, path: string, requestUrl: string)
    ensures Decide(sessionToken, userId, path, requestUrl).ToLogin?
      <==> !IsAuthenticated(sessionToken, userId) && path !in PublicPaths && path != "/"
  {
  }

  /** The chat redirect happens exactly for authenticated requests to public pages. */
  lemma ChatRedirectExactly(sessionToken: Option<string>, userId: Option<string>, path: string, requestUrl: string)
    ensures Decide(sessionToken, userId, path, requestUrl).ToChat?
      <==> IsAuthenticated(sessionToken, userId) && path in PublicPaths
  {
  }

  /** "/" always passes, signed in or not. */
  lemma RootAlwaysPasses(sessionToken: Option<string>, userId: Option<string>, requestUrl: string)
    ensures Guard(sessionToken, userId, "/", requestUrl) == Pass
  {
    assert "/"[1..] == "";
  }

  /** Public-page membership is exact: "/login/" is protected and "/login" is not. */
  lemma TrailingSlashIsProtected(requestUrl: string)
    ensures Decide(None, None, "/login/", requestUrl) == ToLogin(requestUrl)
    ensures Decide(None, None, "/login", requestUrl) == Pass
  {
    assert "/login/" != PublicPaths[0] && "/login/" != PublicPaths[1] && "/login/" != PublicPaths[2];
  }

  /** An empty cookie counts as absent: such a request for "/chat" goes to the login page. */
  lemma EmptyCookieIsSignedOut(requestUrl: string)
    ensures Decide(Some(""), Some("u1"), "/chat", requestUrl) == ToLogin(requestUrl)
  {
    assert "/chat" != PublicPaths[0] && "/chat" != PublicPaths[1] && "/chat" != PublicPaths[2];
  }

  /**
   * The matcher excludes by prefix, so a page such as "/apiary" is never
   * guarded even without a session.
   */
  lemma ApiPrefixIsUnguarded(requestUrl: string)
    ensures Guard(None, None, "/apiary", requestUrl) == Pass
    ensures Guard(None, None, "/chat", requestUrl) == ToLogin(requestUrl)
  {
    assert "/apiary"[1..] == "apiary";
    assert "api" <= "apiary";
    ChatIsMatched();
    EmptyCookieIsSignedOut(requestUrl);
    assert Decide(None, None, "/chat", requestUrl) == ToLogin(requestUrl);
  }

  /** "/chat" reaches the guard. */
  lemma ChatIsMatched()
    ensures Matched("/chat")
  {
    var rest := "/chat"[1..];
    assert rest == "chat";
    assert rest[0] == 'c';
    assert !StartsWith(rest, "api");
    assert !StartsWith(rest, "_next/static");
    assert !StartsWith(rest, "_next/image");
    assert rest[|rest| - 4..] == rest;
    assert rest != ".png";
  }

  /** The path "/" followed by `rest`, and `rest` back from it. */
  lemma SlashRest(rest: string)
    ensures ("/" + rest)[0] == '/' && ("/" + rest)[1..] == rest
  {
  }

  /**
   * Whatever follows the leading "/", an API route, a Next.js static or
   * image asset, or a ".png" file always passes, signed in or not.
   */
  lemma ExcludedPathsPass(sessionToken: Option<string>, userId: Option<string>, rest: string, requestUrl: string)
    requires StartsWith(rest, "api") || StartsWith(rest, "_next/static") || StartsWith(rest, "_next/image")
      || EndsWith(rest, ".png")
    ensures Guard(sessionToken, userId, "/" + rest, requestUrl) == Pass
  {
    SlashRest(rest);
    assert !Matched("/" + rest);
  }

  /**
   * A page whose first character after the "/" cannot start an excluded
   * prefix, and which does not end in ".png", reaches the guard.
   */
  lemma OrdinaryPageIsMatched(path: string)
    requires |path| >= 2 && path[0] == '/'
    requires path[1] != 'a' && path[1] != '_' && path[1] != 'f'
    requires !EndsWith(path, ".png")
    ensures Matched(path)
  {
    var rest := path[1..];
    assert rest[0] == path[1];
    assert |rest| >= 4 ==> rest[|rest| - 4..] == path[|path| - 4..];
  }

  /** Every public page reaches the guard, so the chat redirect can happen. */
  lemma PublicPathsMatched()
    ensures forall p :: p in PublicPaths ==> Matched(p)
  {
    OrdinaryPageIsMatched("/login");
    OrdinaryPageIsMatched("/register");
    ForgotPasswordIsMatched();
  }

  /** "/forgot-password" starts with 'f' like "favicon", but reaches the guard. */
  lemma ForgotPasswordIsMatched()
    ensures Matched("/forgot-password")
  {
    var rest := "/forgot-password"[1..];
    assert rest == "forgot-password";
    assert rest[0] == 'f';
    assert rest[|rest| - 4..] == "word";
    assert rest[..7] == "forgot-" && rest[..7] != "favicon";
    assert !StartsWith(rest, "api") && !StartsWith(rest, "_next/static") && !StartsWith(rest, "_next/image");
  }

  /** A signed-in visit to any public page is sent on to the chat page. */
  lemma SignedInPublicVisitGoesToChat(sessionToken: Option<string>, userId: Option<string>, path: string, requestUrl: string)
    requires IsAuthenticated(sessionToken, userId) && path in PublicPaths
    ensures Guard(sessionToken, userId, path, requestUrl) == ToChat
  {
    PublicPathsMatched();
  }
}
