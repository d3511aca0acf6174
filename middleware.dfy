/** The admin guard of middleware.ts. Next.js runs it only on paths its
    matcher accepts ('/admin' and '/admin/:path*'); inside, any path that
    starts with '/admin' needs a session token or is sent to '/login'. */
module AdminGuard {
  import opened Common

  datatype Decision = Proceed | RedirectToLogin

  const AdminPrefix := "/admin"

  /** middleware(request): the prefix test, then the token test. */
  function Middleware(path: string, hasToken: bool): (r: Decision)
    ensures r == RedirectToLogin <==> StartsWith(path, AdminPrefix) && !hasToken
    ensures r == Proceed <==> !StartsWith(path, AdminPrefix) || hasToken
  {
    if StartsWith(path, AdminPrefix) then
      if !hasToken then RedirectToLogin else Proceed
    else Proceed
  }

  /** `matcher: ['/admin', '/admin/:path*']`: the path itself, or any path
      below it. */
  predicate Matched(path: string) {
    path == AdminPrefix || StartsWith(path, AdminPrefix + "/")
  }

  /** What a request meets: the middleware where the matcher accepts the
      path, nothing otherwise. */
  function Guard(path: string, hasToken: bool): (r: Decision)
    ensures Matched(path) ==> r == Middleware(path, hasToken)
    ensures !Matched(path) ==> r == Proceed
  {
    if Matched(path) then Middleware(path, hasToken) else Proceed
  }

  /** Every path the matcher accepts passes the prefix test, so on those
      paths a request without a token is always redirected. */
  lemma MatchedIsAdmin(path: string)
    requires Matched(path)
    ensures StartsWith(path, AdminPrefix)
    ensures Guard(path, false) == RedirectToLogin && Guard(path, true) == Proceed
  {
    if path != AdminPrefix {
      assert path[..|AdminPrefix|] == (AdminPrefix + "/")[..|AdminPrefix|];
    }
  }

  /** The prefix test alone would also guard '/adminx', but the matcher
      never runs the middleware there, so such a path is open. */
  lemma PrefixWiderThanMatcher()
    ensures Middleware("/adminx", false) == RedirectToLogin
    ensures !Matched("/adminx") && Guard("/adminx", false) == Proceed
  {
    assert "/adminx"[..|AdminPrefix|] == AdminPrefix;
    assert "/adminx"[..|AdminPrefix + "/"|] != AdminPrefix + "/" by {
      assert "/adminx"[6] == 'x';
      assert (AdminPrefix + "/")[6] == '/';
    }
  }

  /** Paths outside the admin area always proceed, token or not. */
  lemma PublicPathsOpen(path: string, hasToken: bool)
    requires !StartsWith(path, AdminPrefix)
    ensures Guard(path, hasToken) == Proceed
  {
    if Matched(path) {
      MatchedIsAdmin(path);
    }
  }
}
