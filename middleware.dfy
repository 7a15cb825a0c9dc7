/** The route guard of middleware.ts: which requests next-auth lets
    through, and which paths the guard runs on at all. */
module Middleware {
  import opened Strings

  /** The pages and API routes reachable without signing in. */
  predicate IsPublic(path: string) {
    StartsWith(path, "/api/auth") || path == "/login" || path == "/register"
  }

  /** The `authorized` callback. */
  function Authorized(path: string, hasToken: bool): (ok: bool)
    ensures hasToken ==> ok
    ensures IsPublic(path) ==> ok
    ensures !IsPublic(path) ==> (ok <==> hasToken)
  {
    IsPublic(path) || hasToken
  }

  /** The `matcher` prefixes; `/p/:path*` matches `/p` and everything below. */
  const Protected: seq<string> := ["/dashboard", "/onboarding", "/profile", "/api/user"]

  predicate Matches(path: string, prefix: string) {
    path == prefix || StartsWith(path, prefix + "/")
  }

  predicate InMatcher(path: string) {
    exists i :: 0 <= i < |Protected| && Matches(path, Protected[i])
  }

  /** Whether a request gets through: the guard runs only on matched paths. */
  function Admitted(path: string, hasToken: bool): (ok: bool)
    ensures !InMatcher(path) ==> ok
  {
    !InMatcher(path) || Authorized(path, hasToken)
  }

  /** A path under a prefix that differs from "/api/auth" in its second or
      sixth character does not start with "/api/auth". */
  lemma NotApiAuth(path: string, prefix: string)
    requires StartsWith(path, prefix) && |prefix| >= 6
    requires prefix[1] != 'a' || prefix[5] != 'a'
    ensures !StartsWith(path, "/api/auth")
  {
    assert path[1] == prefix[1] && path[5] == prefix[5];
  }

  /** None of the guarded paths is public, so each needs a token. */
  lemma {:induction false} GuardedNeedToken(path: string, hasToken: bool)
    requires InMatcher(path)
    ensures !IsPublic(path)
    ensures Admitted(path, hasToken) <==> hasToken
  {
    var i :| 0 <= i < |Protected| && Matches(path, Protected[i]);
    var p := Protected[i];
    assert p == "/dashboard" || p == "/onboarding" || p == "/profile" || p == "/api/user";
    assert StartsWith(path, p) by {
      if path != p {
        assert path[..|p|] == (p + "/")[..|p|];
      }
    }
    NotApiAuth(path, p);
    assert path != "/login" && path != "/register";
  }
}
