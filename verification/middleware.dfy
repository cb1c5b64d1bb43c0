/** The request middleware of src/middleware.ts: signed-in users are kept away
    from the sign-in and sign-up pages, signed-out users are kept away from
    the application under `/app`. Whether the request carries a valid session
    token is an input; the token lookup itself is not modelled. */
module Middleware {
  import opened Seqs
  import opened Text
  import opened Urls

  datatype Response = Next | Redirect(location: string)

  const SignIn := "/auth/signin"
  const SignUp := "/auth/signup"
  const AppHome := "/app"

  /** The query of the sign-in redirect, remembering where the user was
      going. The path is inserted as is, without URL encoding. */
  function CallbackQuery(path: string): string
  {
    "callbackUrl=" + path
  }

  /** `/auth/signin?callbackUrl=<path>`. */
  function SignInRedirect(path: string): string
  {
    SignIn + "?" + CallbackQuery(path)
  }

  /** A path is an auth page iff it starts with one of the two auth paths. */
  predicate IsAuthPage(path: string)
  {
    StartsWith(path, SignIn) || StartsWith(path, SignUp)
  }

  /** The decision of `middleware` for a request it is run on. */
  function Decide(authenticated: bool, path: string): (r: Response)
    ensures IsAuthPage(path) ==> (r == Next <==> !authenticated)
    ensures IsAuthPage(path) && authenticated ==> r == Redirect(AppHome)
    ensures !IsAuthPage(path) ==> (r.Redirect? <==> !authenticated && StartsWith(path, AppHome))
    ensures !IsAuthPage(path) && r.Redirect? ==> r.location == SignInRedirect(path)
  {
    if IsAuthPage(path) then
      if authenticated then Redirect(AppHome) else Next
    else if !authenticated && StartsWith(path, AppHome) then
      Redirect(SignInRedirect(path))
    else
      Next
  }

  /** `config.matcher`: `/app` and everything below it, and the two auth
      pages exactly. */
  predicate Matched(path: string)
  {
    path == AppHome || StartsWith(path, AppHome + "/") || path == SignIn || path == SignUp
  }

  /** What a request gets: paths outside the matcher never reach the
      middleware and pass through. */
  function Handle(authenticated: bool, path: string): (r: Response)
    ensures !Matched(path) ==> r == Next
    ensures r.Redirect? ==> Matched(path)
  {
    if Matched(path) then Decide(authenticated, path) else Next
  }

  /** Among the matched paths the auth pages are exactly the two auth paths,
      and the others are the application's. */
  lemma MatchedPathsSplit(path: string)
    requires Matched(path)
    ensures IsAuthPage(path) <==> path == SignIn || path == SignUp
    ensures !IsAuthPage(path) ==> StartsWith(path, AppHome)
  {
    if path == AppHome || StartsWith(path, AppHome + "/") {
      assert path[..4] == AppHome;
      assert path[2] == 'p' && SignIn[2] == 'u' && SignUp[2] == 'u';
    }
  }

  /** Access control: a signed-in user is turned away from exactly the auth
      pages and a signed-out user from exactly the application pages. */
  lemma AccessControl(authenticated: bool, path: string)
    requires Matched(path)
    ensures authenticated ==> (Handle(authenticated, path) == Redirect(AppHome) <==> path == SignIn || path == SignUp)
    ensures !authenticated ==> (Handle(authenticated, path).Redirect? <==> path != SignIn && path != SignUp)
    ensures !authenticated && Handle(authenticated, path).Redirect? ==>
      Handle(authenticated, path) == Redirect(SignInRedirect(path))
  {
    MatchedPathsSplit(path);
  }

  /** Following a redirect never redirects again: the browser requests the
      pathname of the location and is let through. */
  lemma RedirectSettles(authenticated: bool, path: string)
    requires Handle(authenticated, path).Redirect?
    ensures Handle(authenticated, PathOf(Handle(authenticated, path).location)) == Next
  {
    if authenticated {
      assert PathOf(AppHome) == AppHome;
      assert !StartsWith(AppHome, SignIn);
    } else {
      BuildThenSplit(SignIn, CallbackQuery(path));
      assert StartsWith(SignIn, SignIn);
    }
  }

  /** The sign-in redirect carries the original path back, unchanged, in its
      query string. */
  lemma CallbackCarriesPath(path: string)
    requires Handle(false, path).Redirect?
    ensures QueryOf(Handle(false, path).location) == Some("callbackUrl=" + path)
  {
    MatchedPathsSplit(path);
    BuildThenSplit(SignIn, CallbackQuery(path));
  }

  /** `startsWith("/app")` alone would also catch `/apple`; the matcher keeps
      such paths away from the middleware. */
  lemma MatcherNarrowsAppPrefix()
    ensures Decide(false, "/apple").Redirect?
    ensures Handle(false, "/apple") == Next
  {
    assert "/apple"[..4] == AppHome;
    assert "/apple"[4] == 'l' && (AppHome + "/")[4] == '/';
  }
}
