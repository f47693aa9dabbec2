/**
 * The access rule of `claims_interface/middleware.py`: a decision on the
 * request path and the user's authenticated and staff flags alone.
 */
module Middleware {

  /** Hand the request on to the view, or redirect to the login page. */
  datatype Decision = PassThrough | RedirectToLogin

  /** `path.startswith(prefix)`. */
  predicate StartsWith(path: string, prefix: string) { prefix <= path }

  /** The paths the middleware never inspects further: login, logout, static files and the root. */
  predicate Public(path: string)
  {
    StartsWith(path, "/login/") || StartsWith(path, "/logout/") || StartsWith(path, "/static/") || path == "/"
  }

  /** `AuthenticationMiddleware.__call__`. */
  function Decide(path: string, authenticated: bool, staff: bool): Decision
  {
    if Public(path) then PassThrough
    else if StartsWith(path, "/dashboard/") && !authenticated then RedirectToLogin
    else if StartsWith(path, "/admin/") && (!authenticated || !staff) then RedirectToLogin
    else PassThrough
  }

  /** Login, logout, static files and the root pass whoever asks. */
  lemma PublicPathsPass(path: string, authenticated: bool, staff: bool)
    requires Public(path)
    ensures Decide(path, authenticated, staff) == PassThrough
  {
  }

  /** A dashboard path is refused exactly to an anonymous user. */
  lemma DashboardNeedsLogin(path: string, authenticated: bool, staff: bool)
    requires StartsWith(path, "/dashboard/")
    ensures Decide(path, authenticated, staff) == RedirectToLogin <==> !authenticated
  {
    assert !Public(path) by {
      assert path[1] == 'd';
    }
    assert !StartsWith(path, "/admin/") by {
      assert path[1] == 'd';
    }
  }

  /** An admin path is let through exactly to an authenticated staff user. */
  lemma AdminNeedsStaff(path: string, authenticated: bool, staff: bool)
    requires StartsWith(path, "/admin/")
    ensures Decide(path, authenticated, staff) == PassThrough <==> authenticated && staff
  {
    assert !Public(path) by {
      assert path[1] == 'a';
    }
    assert !StartsWith(path, "/dashboard/") by {
      assert path[1] == 'a';
    }
  }

  /** Any other path passes, whatever the user. */
  lemma OtherPathsPass(path: string, authenticated: bool, staff: bool)
    requires !StartsWith(path, "/dashboard/") && !StartsWith(path, "/admin/")
    ensures Decide(path, authenticated, staff) == PassThrough
  {
  }

  /** More privilege never loses access: what an anonymous or non-staff user reaches, a staff user reaches too. */
  lemma MorePrivilegeNeverRefused(path: string, authenticated: bool, staff: bool, authenticated': bool, staff': bool)
    requires authenticated ==> authenticated'
    requires staff ==> staff'
    requires Decide(path, authenticated, staff) == PassThrough
    ensures Decide(path, authenticated', staff') == PassThrough
  {
  }

  /** A logged-in user without staff status reaches the dashboard and not the admin. */
  lemma NonStaffUser()
    ensures Decide("/dashboard/claims/", true, false) == PassThrough
    ensures Decide("/admin/", true, false) == RedirectToLogin
  {
    DashboardNeedsLogin("/dashboard/claims/", true, false);
    AdminNeedsStaff("/admin/", true, false);
  }
}
