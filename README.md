# Admin dashboard core, modelled in Dafny

This project models the logic core of the browser-side admin console in
`js/admin-dashboard.js`. That core consists of:

- the session guard around every API call (`makeAuthenticatedRequest`), and the
  callers that add their own policy on top (`checkAuthStatus`,
  `testAdminAccess`, `loadDashboardData` as declared, `logout`), and the
  replacement of `loadDashboardData` that runs at run time;
- the request that guard builds: the URL, the header merge, and the method
  and body passed through;
- the query strings grown by `loadAllUsers`, `loadAllTechnicians` and
  `loadPendingReviews`, and the filters `filterUsers` and the two search
  boxes feed them;
- the input guards of `submitDecision` and `saveCategoryFromModal`;
- the display helpers: the two status-colour maps, the CSS class of a KYC
  status, and the three-thumbnail document strip;
- section navigation: `hideAllContent`, `updateActiveNav` and the ten `showX`
  functions.

The state the source changes in place is held in two classes:

- `Session.AdminSession` holds `localStorage`, `window.location.href`, the
  `api-status-alert` element and a log of issued requests;
- `Navigation.Page` holds the `style.display` of every element and the
  `active` flag of every sidebar link in an array.

The rest is functions and lemmas. `fetch` is replaced by an input of type
`Http.Reply`: either a status code or a transport failure. The answer to the
logout confirmation dialog is a boolean parameter.

The JavaScript runtime pieces the core depends on are modelled in their own
modules:

- `Text` models `toLowerCase` (ASCII), `trim`, `includes`, `indexOf`,
  `replace` with a string pattern, and decimal rendering.
- `Uri` models `encodeURIComponent`, proved to decode back to the UTF-8
  octets of its input.

Header merge: makeAuthenticatedRequest spreads `...options.headers` after
its two default headers (js/admin-dashboard.js:106-110). A header the caller
supplies therefore replaces the default of the same name, and a caller's
`Authorization` replaces the bearer token. `Http.BuildRequest` and
`Http.CallerAuthorizationWins` state this.

## Model

| member | source | states |
|---|---|---|
| Session.AdminSession.MakeAuthenticatedRequest | js/admin-dashboard.js:96-141 | No token (missing or empty): no request, one redirect to the login page, null result. With a token: exactly one request, built by `BuildRequest`. 401: token removed, redirect, null. 403: token and location kept, alert shown if the page has one, response returned. Other statuses: response returned, no other change. Transport failure: rejection propagates, nothing else changes. |
| Session.AdminSession.CheckAuthStatus | js/admin-dashboard.js:49-61 | No token (missing or empty): one redirect to the login page, no request, storage unchanged, so an empty token stays in place. With a token: the effects of testAdminAccess, which is called only from here. Afterwards a usable token is stored or the login page is loaded. |
| Session.AdminSession.TestAdminAccess | js/admin-dashboard.js:66-91 | An ok response changes nothing except the logged request. Every failing branch ends with the token removed and the login page loaded: no response, non-ok status, 403 after the delay, transport failure after the delay. The number of redirects is 2 when makeAuthenticatedRequest already redirected, otherwise 1. |
| Session.AdminSession.LoadDashboardData | js/admin-dashboard.js:146-168 | The panel shows the statistics if and only if the reply is ok. It shows access denied if and only if the reply is 403, and the load-failed message if and only if the request was rejected. The follow-up loadRecentSubmissions request is issued unless the first request was rejected or no token remained. The token is removed only when makeAuthenticatedRequest sees a 401. This is the function as written; js/admin-dashboard.js:1943 replaces it at run time (see Findings). |
| Session.AdminSession.LoadCompleteDashboard | js/admin-dashboard.js:1927-1943 | What a `loadDashboardData()` call runs after the rebinding: the promise rejects before any request, and no state changes. |
| Session.AdminSession.Logout | js/admin-dashboard.js:633-638 | On confirmation: token removed and login page loaded. Otherwise nothing changes. |
| Session.IsTokenPresent | js/admin-dashboard.js:97-99 | `getItem('admin_token')` is truthy: the key is present and its value is not the empty string. |
| Session.AdminSession.HasToken | js/admin-dashboard.js:97-99 | The same test on the session's current storage; a usable token implies the key is stored. |
| Session.TokenPresence | js/admin-dashboard.js:125 | After `removeItem`, or with `""` stored, there is no usable token. A non-empty value stored under the key is one. Other keys do not affect it. |
| Session.AdminSession.RemoveToken | js/admin-dashboard.js:125 | Removes exactly the `admin_token` key. Removing an absent key changes nothing. |
| Session.AdminSession.RedirectToLogin | js/admin-dashboard.js:126 | Location becomes `admin-login.html`. One more redirect is counted. |
| Http.BuildRequest | js/admin-dashboard.js:105-119 | URL is the base URL followed by the endpoint. Method and body pass through. The header keys are the two defaults plus the caller's keys. A caller key keeps the caller's value. The bearer token and the JSON content type are used only where the caller gave no value. |
| Http.CallerAuthorizationWins | js/admin-dashboard.js:106-110 | A caller-supplied Authorization header is the one sent, and the request no longer depends on the stored token. |
| Http.IsOk | js/admin-dashboard.js:69 | `response.ok` is a 2xx status, so it never holds for the 401 and 403 that makeAuthenticatedRequest handles itself. |
| Http.PlainRequest | js/admin-dashboard.js:96-119 | With the default `options = {}`, exactly the two default headers are sent, with method GET. |
| Endpoints.OptionalParam | js/admin-dashboard.js:743-744 | At most one pair. There is one exactly when the filter value is truthy, and then it has the filter's key and the value unencoded. |
| Endpoints.SearchParam | js/admin-dashboard.js:745 | At most one pair. There is one exactly when the term is truthy, and then it has the key `search` and a value that percent-decodes to the UTF-8 octets of the term. |
| Endpoints.UsersEndpoint | js/admin-dashboard.js:740-745 | The endpoint grown by `+=` equals `/admin/users` with the query page, limit, role, status, search. Each optional pair is present only if its value is truthy. The search value is percent-encoded. |
| Endpoints.TechniciansEndpoint | js/admin-dashboard.js:767-770 | Likewise for `/admin/technicians` with page, limit, status, search. |
| Endpoints.PendingReviewsEndpoint | js/admin-dashboard.js:254-258 | `/kyc-admin/technicians/pending-review` with page 1, limit 20, and the status pair only when the selector is not empty. |
| Endpoints.ParseJoin | js/admin-dashboard.js:740-745 | A query built from pairs whose key holds no `&` or `=`, and whose value holds no `&`, splits back into exactly those pairs. |
| Endpoints.QueriesReadBack | js/admin-dashboard.js:740-770 | The users and technicians queries read back as their pairs, in order, provided role and status hold no `&`. Those two are not encoded; the search term needs no such condition. |
| Endpoints.FilterUsers | js/admin-dashboard.js:1278-1281 | "all" gives no filter. Any other role gives exactly that role, and no status or search. |
| Endpoints.FilterUsersQuery | js/admin-dashboard.js:1278-1281 | filterUsers requests page 1, limit 10, plus `role=<role>` unless the role is "all" or empty. |
| Endpoints.SearchDispatch | js/admin-dashboard.js:2442-2447 | It searches if and only if the trimmed input has at least 2 characters, and the search is for the trimmed term. It reloads unfiltered if and only if the input is all white space. It does nothing if and only if the trimmed input has exactly 1 character. |
| Endpoints.ReloadQuery | js/admin-dashboard.js:2445-2446 | A blank box reloads: the users query and the technicians query (js/admin-dashboard.js:2466-2467) are both exactly page 1 and limit 10, with no filter pair. |
| Endpoints.WaitingSendsNothing | js/admin-dashboard.js:2442-2447 | A trimmed input of exactly one character issues no request from either box. |
| Endpoints.SearchReachesQuery | js/admin-dashboard.js:2442-2469 | A search that fires produces users and technicians queries with the same three pairs: page 1, limit 10, and the encoded term. Decoding that term gives the UTF-8 octets of the trimmed input. |
| Uri.EncodeURIComponent | js/admin-dashboard.js:745 | The output is at least as long as the input and at most twelve times as long. |
| Uri.EncodeOne | js/admin-dashboard.js:745 | A single character stays as it is if unreserved; otherwise it becomes the escapes of its UTF-8 octets. |
| Uri.EncodeConcat | js/admin-dashboard.js:745 | Encoding a concatenation concatenates the encodings. With EncodeOne this fixes the output for every string. |
| Uri.EncodedIsSafe | js/admin-dashboard.js:745 | `encodeURIComponent` output holds only unreserved characters and `%`, so no `&`, `=` or space. |
| Uri.EncodeUnreservedIsIdentity | js/admin-dashboard.js:745 | A term made of unreserved characters is sent unchanged. |
| Uri.DecodeEncode | js/admin-dashboard.js:745 | Percent-decoding the encoded term gives back the UTF-8 octets of the term. |
| Uri.DecodePercentBytes | js/admin-dashboard.js:745 | Escapes of octets followed by any text decode to those octets followed by the decoding of the text. |
| Forms.SubmitDecision | js/admin-dashboard.js:497-503 | Refused if and only if the decision is reject and the notes are all white space. Otherwise it sends a POST to `/kyc-admin/technicians/{id}/final-verification` with the decision and the trimmed notes. An approval with blank notes goes through. |
| Forms.SaveCategory | js/admin-dashboard.js:1399-1435 | Refused if and only if the name is all white space. It sends if and only if the name is non-blank and the action is create or edit. Create is a POST to `/admin/categories`. Edit is a PUT to `/admin/categories/{id}`. Both carry the trimmed name and description and the active flag. |
| Forms.FormRequestsKeepDefaultHeaders | js/admin-dashboard.js:1421-1435 | The content type the handlers pass equals the default, so the request headers are exactly the defaults with the token. |
| Display.AppointmentStatusColor | js/admin-dashboard.js:2208-2217 | Always a palette colour. A known status gets its table colour: completed success, scheduled primary, in_progress info, cancelled danger, pending warning. `secondary` if and only if the status is missing or its lower-case form is not one of these five. |
| Display.PaymentStatusColor | js/admin-dashboard.js:2222-2230 | Always a palette colour. A known status gets its table colour: completed and success success, pending warning, failed and declined danger, processing info. `secondary` if and only if the status is missing or its lower-case form is not one of these six. |
| Display.AppointmentColorIgnoresCase | js/admin-dashboard.js:2209 | A status and its lower-case form get the same appointment colour. |
| Display.PaymentColorIgnoresCase | js/admin-dashboard.js:2223 | A status and its lower-case form get the same payment colour. |
| Display.SameColorsUpToCase | js/admin-dashboard.js:2208-2230 | Two statuses equal up to case get the same colours in both maps. |
| Display.StatusClass | js/admin-dashboard.js:310 | Same length as the status. Every character is lowered, except the first underscore, which becomes `-`. |
| Display.UnderscoreSurvivesLowering | js/admin-dashboard.js:310 | Lowering keeps the position of the first underscore. |
| Display.SecondUnderscoreStays | js/admin-dashboard.js:310 | Every underscore after the first is kept in the class. |
| Display.DocumentPreview | js/admin-dashboard.js:321-325 | At most three thumbnails, the first URLs in order, captioned "Document 1", "Document 2", "Document 3". The badge is present if and only if there are more than three URLs, and it counts the rest. |
| Display.PreviewAccountsForAll | js/admin-dashboard.js:321-325 | Thumbnails plus the badge count equal the number of URLs. A badge never shows 0. |
| Navigation.ContentId | js/admin-dashboard.js:527-583 | The element each showX displays is one of the ten sections that hideAllContent hides. showServices and showPayments are at js/admin-dashboard.js:2345-2361. |
| Navigation.ContentIdInjective | js/admin-dashboard.js:527-583 | No two showX display the same element. showServices and showPayments are at js/admin-dashboard.js:2345-2361. |
| Navigation.ActiveLinks | js/admin-dashboard.js:607-617 | A link is active if and only if its trimmed text contains the label. |
| Navigation.DisplayOnlyShape | js/admin-dashboard.js:585-605 | Hiding a list of sections and then displaying one of them adds and removes no element and changes no other element. Among the listed sections present, exactly the target is `block`; the rest are `none`. |
| Navigation.DisplayOnlyForgets | js/admin-dashboard.js:585-605 | Displaying a second listed section after a first gives the same result as displaying only the second. |
| Navigation.ShowDisplaysOneSection | js/admin-dashboard.js:527-583 | After showX, of the ten sections present, exactly the section of X is displayed and the others are hidden. Every other element is unchanged. showServices and showPayments are at js/admin-dashboard.js:2345-2361. |
| Navigation.ShowForgetsPrevious | js/admin-dashboard.js:527-583 | The page after showX does not depend on which section was shown before. Showing a section twice is showing it once. showServices and showPayments are at js/admin-dashboard.js:2345-2361. |
| Navigation.Page.HideAllContent | js/admin-dashboard.js:585-605 | The new display is the old one with each of the ten sections that is present set to `none`. |
| Navigation.Page.HideEach | js/admin-dashboard.js:599-604 | The same, for the `forEach` over any id list. |
| Navigation.Page.UpdateActiveNav | js/admin-dashboard.js:607-617 | After both loops, the link flags are exactly `ActiveLinks` of the link texts and the label. |
| Navigation.Page.ClearActive | js/admin-dashboard.js:608-610 | Every link is inactive. |
| Navigation.Page.MarkActive | js/admin-dashboard.js:612-616 | Starting from all links inactive, each link ends active if and only if it matches. |
| Navigation.Page.Show | js/admin-dashboard.js:527-583 | The display becomes `Shown` of the old display. The links follow `ActiveLinks` for the section's label. The result is false exactly when the section's element is missing, the case where the source throws. showServices and showPayments are at js/admin-dashboard.js:2345-2361. |
| Text.ToLower | js/admin-dashboard.js:2209 | Same length. Each character is lowered. |
| Text.ToLowerIdempotent | js/admin-dashboard.js:2209 | Lowering twice is lowering once. |
| Text.Trim | js/admin-dashboard.js:498 | The result is one contiguous piece of the input, with only white space before and after it. It is empty if and only if the input is all white space, and otherwise starts and ends with a non-space character. |
| Text.TrimIdempotent | js/admin-dashboard.js:2442 | Trimming a trimmed term changes nothing. |
| Text.Includes | js/admin-dashboard.js:613 | `includes` as a scan from the left: it holds when the text starts with the label, and never for a label longer than the text. |
| Text.IncludesIffOccurs | js/admin-dashboard.js:613 | The `includes` scan holds if and only if some window of the text equals the label. |
| Text.IndexOf | js/admin-dashboard.js:310 | Gives the first position of the character, or -1 if and only if the character is absent. |
| Text.ReplaceFirst | js/admin-dashboard.js:310 | Only the first occurrence is replaced; everything else is kept. |
| Text.NatToString | js/admin-dashboard.js:740 | Digits only, with no leading zero except for 0. |
| Text.ParseNatToString | js/admin-dashboard.js:740 | The rendering of a page or limit reads back as the same number. |
| Text.IntToStringReadsBack | js/admin-dashboard.js:740 | A template literal's rendering of an integer is non-empty. It starts with a minus sign exactly when the number is negative. The rest is digits only, and `ParseInt` reads the text back as the same number. |
| Text.IntToStringInjective | js/admin-dashboard.js:740 | Distinct page or limit values give distinct query text. |

## Left out

- `fetch`, the network and `response.json()`: replaced by the `Reply` input. The rendering of the data that comes back is not modelled.
- Asynchrony and timing: `await` order, the three-second `setTimeout` before the 403 and failure redirects, and the 500 ms search debounce. Only the eventual effect is modelled.
- Session.AdminSession.TestAdminAccess: the 403 and transport-failure branches are stated as if their timer has fired.
- HTML templating, `innerHTML`, Bootstrap modals, `alert`/`confirm` text, toasts, `showError` and console logging.
- `displayUserInfo`: the JWT payload is decoded with `atob` and `JSON.parse`, which are foreign decoders.
- Uri.EncodeURIComponent: `encodeURIComponent` throws `URIError` on a lone UTF-16 surrogate, and loadAllUsers then sends no request. A Dafny `char` is a Unicode scalar value and cannot hold a lone surrogate, so that path is not modelled.
- `formatDate` (locale formatting) and the confidence percentage (floating point `toFixed`).
- Navigation.Page.Show: the data load each showX starts after displaying its section is not modelled. For every showX except showDashboard, that load is an API call covered by the session model. showDashboard calls `loadDashboardData()`, which after js/admin-dashboard.js:1943 runs loadCompleteDashboard: it sends nothing and rejects (Session.AdminSession.LoadCompleteDashboard).
- Session.AdminSession.LoadDashboardData: it models the function declared at js/admin-dashboard.js:146-168. The classic script replaces that global at js/admin-dashboard.js:1943, so the calls at js/admin-dashboard.js:17, 531, 626, 629 and 923 run loadCompleteDashboard instead. The model keeps the declared function and records the replacement under Findings.
- The responses of performKycVerification and saveCategoryFromModal: Forms models the call each handler makes, not the reply handling.
- The HTTP method and body are kept as values. The `JSON.stringify` text of the body is not modelled.
- `documentUrls || []` is not modelled: Display.DocumentPreview takes the list itself.
- The other loaders in loadCompleteDashboard's array, which never run because its first element throws. Also the duplicated `viewTechnicianDetails`, `filterBookings`, the stub filters that ignore their argument, `refreshData` and js/custom.js (slideshow and scroll effects).
- Text.ToLower: covers the ASCII letters only, not the full Unicode case mapping of `toLowerCase`.
- Endpoints.SearchDispatch: lengths count Unicode scalar values, while JavaScript counts UTF-16 code units. They differ only for characters outside the Basic Multilingual Plane.
- Text.NatToString: page and limit are rendered as integer digits. Numbers of 1e21 and above, which JavaScript prints in exponent form, are not modelled.
- Http.BuildRequest: header names are compared exactly. The case-insensitive matching of `fetch`'s Headers object is not modelled.
- Endpoints.UsersEndpoint: like the source, role and status are appended unencoded; only the search term is encoded.

## Findings

| source | as written | input that shows it | evidently intended | confidence | as-written member | corrected member |
|---|---|---|---|---|---|---|
| js/admin-dashboard.js:1927-1943 | `window.loadDashboardData = loadCompleteDashboard` replaces the statistics loader. The first element of loadCompleteDashboard's `Promise.all` array calls `loadDashboardStatistics`, which the script never defines. | Any `loadDashboardData()` call, for example the one on page load (js/admin-dashboard.js:17) with a valid token. A ReferenceError rejects the promise, and neither the statistics request nor the recent-submissions request is sent. | The dashboard loads its statistics and recent submissions, as the declared loadDashboardData does (js/admin-dashboard.js:146-168). | medium; not executed | Session.AdminSession.LoadCompleteDashboard | Session.AdminSession.LoadDashboardData |
