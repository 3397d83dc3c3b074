/**
 * The routing rule of the request middleware: signed-in users are kept away
 * from the sign-in pages and the root, anonymous users are sent to the
 * sign-in page from every page that is not public.
 */
module Middleware {
  import opened Strings

  /** What the middleware does with a request: let it through, or redirect it to a path. */
  datatype Decision = Continue | RedirectTo(path: string)

  const Login := "/login"
  const Register := "/register"
  const Dashboard := "/dashboard"
  const Root := "/"
  const AuthPrefix := "/auth/"

  /** The pages for signing in. */
  predicate AuthPage(pathname: string) {
    pathname == Login || pathname == Register
  }

  /** The pages an anonymous user may open: the sign-in pages, the root and the OAuth routes. */
  predicate PublicPage(pathname: string) {
    AuthPage(pathname) || pathname == Root || StartsWith(pathname, AuthPrefix)
  }

  /** The decision for a request to `pathname`, by a signed-in user or not. */
  function Route(authenticated: bool, pathname: string): (d: Decision)
    ensures d == RedirectTo(Dashboard) <==> authenticated && (AuthPage(pathname) || pathname == Root)
    ensures d == RedirectTo(Login) <==> !authenticated && !PublicPage(pathname)
    ensures d == Continue <==>
      (authenticated && !AuthPage(pathname) && pathname != Root) || (!authenticated && PublicPage(pathname))
    ensures d.RedirectTo? ==> d.path == Dashboard || d.path == Login
    ensures authenticated ==> d != RedirectTo(Login)
    ensures !authenticated ==> d != RedirectTo(Dashboard)
  {
    if authenticated && (pathname == Login || pathname == Register) then RedirectTo(Dashboard)
    else if authenticated && pathname == Root then RedirectTo(Dashboard)
    else if !authenticated && pathname != Login && pathname != Register &&
            !StartsWith(pathname, AuthPrefix) && pathname != Root then RedirectTo(Login)
    else Continue
  }

  /** Following a redirect, with the same sign-in state, lets the request through: there is no redirect loop. */
  lemma NoRedirectLoop(authenticated: bool, pathname: string)
    ensures Route(authenticated, pathname).RedirectTo? ==>
      Route(authenticated, Route(authenticated, pathname).path) == Continue
  {
    if Route(authenticated, pathname).RedirectTo? {
      assert !StartsWith(Dashboard, AuthPrefix) by {
        assert Dashboard[..|AuthPrefix|] != AuthPrefix by {
          assert Dashboard[1] != AuthPrefix[1];
        }
      }
    }
  }

  /** Every page under the OAuth routes is public: it is never redirected for an anonymous user. */
  lemma AuthRoutesOpen(suffix: string)
    ensures Route(false, AuthPrefix + suffix) == Continue
  {
    assert (AuthPrefix + suffix)[..|AuthPrefix|] == AuthPrefix;
  }
}
