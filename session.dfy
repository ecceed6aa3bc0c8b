/** The session guard of the admin console: the bearer token kept in
    `localStorage` under `admin_token`, the page location, the
    `api-status-alert` element, and the calls that read and clear them. */
module Session {
  import opened Wrappers
  import opened Http

  const TokenKey := "admin_token"
  const LoginPage := "admin-login.html"
  const StatisticsEndpoint := "/kyc-admin/kyc-statistics"
  const RecentSubmissionsEndpoint := "/kyc-admin/technicians/pending-review?page=1&limit=5"

  /** `localStorage.getItem('admin_token')` is truthy: present and not the
      empty string (JavaScript treats both `null` and `""` as falsy). */
  predicate IsTokenPresent(storage: map<string, string>)
    ensures IsTokenPresent(storage) ==> TokenKey in storage
  {
    TokenKey in storage && storage[TokenKey] != ""
  }

  /** Removing the key, or storing the empty string under it, leaves no
      usable token; storing a non-empty string leaves one; other keys do
      not matter. */
  lemma TokenPresence(storage: map<string, string>, key: string, t: string)
    ensures !IsTokenPresent(storage - {TokenKey})
    ensures !IsTokenPresent(storage[TokenKey := ""])
    ensures IsTokenPresent(storage[TokenKey := t]) <==> t != ""
    ensures key != TokenKey ==> (IsTokenPresent(storage[key := t]) <==> IsTokenPresent(storage))
  {
  }

  /** What makeAuthenticatedRequest resolves to: `null`, a response with
      its status, or a rejection carried through from `fetch`. */
  datatype Outcome = NoResponse | Response(status: int) | Rejected

  /** The statistics panel after loadDashboardData. */
  datatype StatsView =
    | StatsShown          // the statistics were rendered
    | AccessDenied        // "Access denied. Please ensure you have admin privileges."
    | StatsUnavailable    // "Failed to load statistics"
    | LoadFailed          // "Failed to load dashboard data: ..."

  /** The browser state the session guard reads and writes. */
  class AdminSession {
    /** `localStorage`. */
    var storage: map<string, string>
    /** `window.location.href`. */
    var location: string
    /** How many times `window.location.href` has been assigned. */
    var redirects: nat
    /** Whether the page has an element with id `api-status-alert`. */
    const hasAlert: bool
    /** Whether that element is displayed. */
    var alertVisible: bool
    /** The requests handed to `fetch`, oldest first. */
    var sent: seq<Request>

    constructor (storage: map<string, string>, location: string, hasAlert: bool)
      ensures this.storage == storage && this.location == location && this.hasAlert == hasAlert
      ensures redirects == 0 && !alertVisible && sent == []
    {
      this.storage := storage;
      this.location := location;
      this.hasAlert := hasAlert;
      redirects := 0;
      alertVisible := false;
      sent := [];
    }

    /** A usable token is stored. */
    predicate HasToken()
      reads this
      ensures HasToken() ==> TokenKey in storage
    {
      IsTokenPresent(storage)
    }

    /** `localStorage.removeItem('admin_token')`: removes that key and no
        other; removing an absent key changes nothing. */
    method RemoveToken()
      modifies this
      ensures storage == old(storage) - {TokenKey}
      ensures location == old(location) && redirects == old(redirects)
      ensures alertVisible == old(alertVisible) && sent == old(sent)
    {
      storage := storage - {TokenKey};
    }

    /** `window.location.href = 'admin-login.html'`. */
    method RedirectToLogin()
      modifies this
      ensures location == LoginPage && redirects == old(redirects) + 1
      ensures storage == old(storage) && alertVisible == old(alertVisible) && sent == old(sent)
    {
      location := LoginPage;
      redirects := redirects + 1;
    }

    /** makeAuthenticatedRequest(endpoint, options), with `reply` standing
        for what `fetch` produces. */
    method MakeAuthenticatedRequest(endpoint: string, options: Options, reply: Reply) returns (r: Outcome)
      modifies this
      // no token: no request, one redirect to the login page, `null`
      ensures !old(HasToken()) ==>
        && r == NoResponse && sent == old(sent)
        && storage == old(storage) && alertVisible == old(alertVisible)
        && location == LoginPage && redirects == old(redirects) + 1
      // a token: exactly one request, built from it
      ensures old(HasToken()) ==>
        sent == old(sent) + [BuildRequest(old(storage)[TokenKey], endpoint, options)]
      // 401: the token is removed, one redirect, `null`
      ensures old(HasToken()) && reply == Answered(401) ==>
        && r == NoResponse && storage == old(storage) - {TokenKey}
        && location == LoginPage && redirects == old(redirects) + 1
        && alertVisible == old(alertVisible)
      // 403: the token stays, no redirect, the alert is shown if there is one
      ensures old(HasToken()) && reply == Answered(403) ==>
        && r == Response(403) && storage == old(storage)
        && location == old(location) && redirects == old(redirects)
        && alertVisible == (old(alertVisible) || hasAlert)
      // any other status: the response, and no other effect
      ensures old(HasToken()) && reply.Answered? && reply.status != 401 && reply.status != 403 ==>
        && r == Response(reply.status) && storage == old(storage)
        && location == old(location) && redirects == old(redirects)
        && alertVisible == old(alertVisible)
      // the transport failed: the rejection propagates, and no other effect
      ensures old(HasToken()) && reply == TransportFault ==>
        && r == Rejected && storage == old(storage)
        && location == old(location) && redirects == old(redirects)
        && alertVisible == old(alertVisible)
    {
      if !HasToken() {
        RedirectToLogin();
        return NoResponse;
      }
      var token := storage[TokenKey];
      sent := sent + [BuildRequest(token, endpoint, options)];
      match reply
      case TransportFault =>
        return Rejected;
      case Answered(status) =>
        if status == 401 {
          RemoveToken();
          RedirectToLogin();
          return NoResponse;
        }
        if status == 403 && hasAlert {
          alertVisible := true;
        }
        return Response(status);
    }

    /** testAdminAccess: request the statistics; unless an ok response comes
        back, end with the token removed and the login page loaded. The
        three-second delay before the 403 and transport-failure redirects
        is not modelled, only its outcome. */
    method TestAdminAccess(reply: Reply)
      modifies this
      ensures old(HasToken()) ==>
        sent == old(sent) + [BuildRequest(old(storage)[TokenKey], StatisticsEndpoint, NoOptions)]
      ensures !old(HasToken()) ==> sent == old(sent)
      // access granted: nothing but the request happens
      ensures old(HasToken()) && reply.Answered? && IsOk(reply.status) ==>
        && storage == old(storage) && location == old(location)
        && redirects == old(redirects) && alertVisible == old(alertVisible)
      // every failing branch: token removed, login page
      ensures !(old(HasToken()) && reply.Answered? && IsOk(reply.status)) ==>
        && storage == old(storage) - {TokenKey} && location == LoginPage
        && redirects == old(redirects) + (if !old(HasToken()) || reply == Answered(401) then 2 else 1)
      ensures alertVisible == (old(alertVisible) || (old(HasToken()) && reply == Answered(403) && hasAlert))
    {
      var response := MakeAuthenticatedRequest(StatisticsEndpoint, NoOptions, reply);
      match response
      case Rejected =>
        RemoveToken();
        RedirectToLogin();
      case NoResponse =>
        RemoveToken();
        RedirectToLogin();
      case Response(status) =>
        if !IsOk(status) {
          RemoveToken();
          RedirectToLogin();
        }
    }

    /** checkAuthStatus: with no usable token, load the login page and do
        nothing else (an empty-string token stays where it is); otherwise
        run testAdminAccess, its only caller. Either way the guard ends
        with a usable token in place or the login page loaded. */
    method CheckAuthStatus(reply: Reply)
      modifies this
      ensures !old(HasToken()) ==>
        && storage == old(storage) && sent == old(sent) && alertVisible == old(alertVisible)
        && location == LoginPage && redirects == old(redirects) + 1
      ensures old(HasToken()) ==>
        sent == old(sent) + [BuildRequest(old(storage)[TokenKey], StatisticsEndpoint, NoOptions)]
      // access granted: nothing but the request happens
      ensures old(HasToken()) && reply.Answered? && IsOk(reply.status) ==>
        && storage == old(storage) && location == old(location)
        && redirects == old(redirects) && alertVisible == old(alertVisible)
      // access refused or unreachable: token removed, login page
      ensures old(HasToken()) && !(reply.Answered? && IsOk(reply.status)) ==>
        && storage == old(storage) - {TokenKey} && location == LoginPage
        && redirects == old(redirects) + (if reply == Answered(401) then 2 else 1)
      ensures alertVisible == (old(alertVisible) || (old(HasToken()) && reply == Answered(403) && hasAlert))
      ensures HasToken() || location == LoginPage
    {
      if !HasToken() {
        RedirectToLogin();
        return;
      }
      TestAdminAccess(reply);
    }

    /** loadDashboardData: request the statistics and render what came back;
        unless the request was rejected, go on to loadRecentSubmissions,
        whose own request gets `recentReply`. It never removes the token
        itself: only a 401 seen by makeAuthenticatedRequest does. */
    method LoadDashboardData(statsReply: Reply, recentReply: Reply) returns (view: StatsView)
      modifies this
      ensures view == LoadFailed <==> (old(HasToken()) && statsReply == TransportFault)
      ensures view == StatsShown <==> (old(HasToken()) && statsReply.Answered? && IsOk(statsReply.status))
      ensures view == AccessDenied <==> (old(HasToken()) && statsReply == Answered(403))
      // no token: neither call is issued, and both redirect
      ensures !old(HasToken()) ==>
        && sent == old(sent) && storage == old(storage) && alertVisible == old(alertVisible)
        && location == LoginPage && redirects == old(redirects) + 2
      // the statistics request was rejected: nothing else happens
      ensures old(HasToken()) && statsReply == TransportFault ==>
        && sent == old(sent) + [BuildRequest(old(storage)[TokenKey], StatisticsEndpoint, NoOptions)]
        && storage == old(storage) && location == old(location)
        && redirects == old(redirects) && alertVisible == old(alertVisible)
      // 401 on the statistics: the token goes, and the follow-up call finds none
      ensures old(HasToken()) && statsReply == Answered(401) ==>
        && sent == old(sent) + [BuildRequest(old(storage)[TokenKey], StatisticsEndpoint, NoOptions)]
        && storage == old(storage) - {TokenKey} && location == LoginPage
        && redirects == old(redirects) + 2 && alertVisible == old(alertVisible)
      // any other status: both calls are issued; only a 401 on the second
      // removes the token, and a 403 on either shows the alert
      ensures old(HasToken()) && statsReply.Answered? && statsReply.status != 401 ==>
        && sent == old(sent) + [BuildRequest(old(storage)[TokenKey], StatisticsEndpoint, NoOptions),
                                BuildRequest(old(storage)[TokenKey], RecentSubmissionsEndpoint, NoOptions)]
        && alertVisible == (old(alertVisible) || (hasAlert && (statsReply == Answered(403) || recentReply == Answered(403))))
        && (recentReply == Answered(401) ==>
              storage == old(storage) - {TokenKey} && location == LoginPage && redirects == old(redirects) + 1)
        && (recentReply != Answered(401) ==>
              storage == old(storage) && location == old(location) && redirects == old(redirects))
    {
      var response := MakeAuthenticatedRequest(StatisticsEndpoint, NoOptions, statsReply);
      match response {
        case Rejected =>
          return LoadFailed;
        case NoResponse =>
          view := StatsUnavailable;
        case Response(status) =>
          view := if IsOk(status) then StatsShown else if status == 403 then AccessDenied else StatsUnavailable;
      }
      var _ := MakeAuthenticatedRequest(RecentSubmissionsEndpoint, NoOptions, recentReply);
    }

    /** What a call of `loadDashboardData()` runs once the script has loaded:
        js/admin-dashboard.js:1943 rebinds the global to loadCompleteDashboard,
        whose first array element calls `loadDashboardStatistics`, a name the
        script never defines. The ReferenceError rejects its promise before
        any element runs, so no request is issued and nothing changes. */
    method LoadCompleteDashboard() returns (rejected: bool)
      ensures rejected
      ensures sent == old(sent) && storage == old(storage)
      ensures location == old(location) && redirects == old(redirects) && alertVisible == old(alertVisible)
    {
      rejected := true;
    }

    /** logout, with `confirmed` standing for the answer to the confirmation
        dialog: on yes, remove the token and load the login page. */
    method Logout(confirmed: bool)
      modifies this
      ensures confirmed ==> storage == old(storage) - {TokenKey} && location == LoginPage && redirects == old(redirects) + 1
      ensures !confirmed ==> storage == old(storage) && location == old(location) && redirects == old(redirects)
      ensures alertVisible == old(alertVisible) && sent == old(sent)
    {
      if confirmed {
        RemoveToken();
        RedirectToLogin();
      }
    }
  }
}
