/** The list endpoints the dashboard requests: users, technicians and
    pending KYC reviews, each a path with a query string grown by appending
    `&key=value` for every filter that is set; plus filterUsers and the
    rule that turns a typed search term into a reload. */
module Endpoints {
  import opened Wrappers
  import opened Text
  import Uri

  /** A filter value is used only when it is truthy: present and not "". */
  predicate Truthy(v: Option<string>) {
    v.Some? && v.value != ""
  }

  /** One `key=value` pair of a query string. */
  datatype Param = Param(key: string, value: string)

  /** `key=value`. */
  function Field(p: Param): string {
    p.key + "=" + p.value
  }

  /** The pairs joined by `&`. */
  function Join(ps: seq<Param>): string {
    if ps == [] then ""
    else if |ps| == 1 then Field(ps[0])
    else Field(ps[0]) + "&" + Join(ps[1..])
  }

  /** `path?k1=v1&k2=v2...`: the reference form of an endpoint. */
  function WithQuery(path: string, ps: seq<Param>): string {
    path + "?" + Join(ps)
  }

  /** Appending one pair to a non-empty list appends `&key=value`. */
  lemma {:induction false} JoinSnoc(ps: seq<Param>, p: Param)
    requires ps != []
    ensures Join(ps + [p]) == Join(ps) + "&" + Field(p)
  {
    if |ps| == 1 {
      assert ps + [p] == [ps[0], p];
      assert [ps[0], p][1..] == [p];
    } else {
      assert (ps + [p])[1..] == ps[1..] + [p];
      JoinSnoc(ps[1..], p);
    }
  }

  /** The reference form of `path?page=P&limit=L`. */
  lemma BaseQuery(path: string, page: string, limit: string)
    ensures WithQuery(path, [Param("page", page), Param("limit", limit)])
         == path + "?page=" + page + "&limit=" + limit
  {
    var ps := [Param("page", page), Param("limit", limit)];
    assert ps[1..] == [ps[1]];
    assert Join(ps) == Field(ps[0]) + "&" + Field(ps[1]);
  }

  /** Appending `&key=value` to the reference form of `ps` gives the
      reference form of `ps` followed by that pair. */
  lemma AppendParam(path: string, ps: seq<Param>, e: string, key: string, value: string)
    requires ps != [] && e == WithQuery(path, ps)
    ensures e + ("&" + key + "=") + value == WithQuery(path, ps + [Param(key, value)])
  {
    JoinSnoc(ps, Param(key, value));
  }

  /** The pair for an optional filter: at most one, present exactly when
      the value is truthy, and then under `key` with the value unchanged. */
  function OptionalParam(key: string, v: Option<string>): (ps: seq<Param>)
    ensures |ps| <= 1 && (ps != [] <==> Truthy(v))
    ensures ps != [] ==> ps[0].key == key && ps[0].value == v.value
  {
    if Truthy(v) then [Param(key, v.value)] else []
  }

  /** The search pair: at most one, present exactly when the term is
      truthy, and then under `search` with a value that percent-decodes to
      the UTF-8 octets of the term. */
  function SearchParam(v: Option<string>): (ps: seq<Param>)
    ensures |ps| <= 1 && (ps != [] <==> Truthy(v))
    ensures ps != [] ==>
      && ps[0].key == "search"
      && Uri.PercentDecode(ps[0].value) == Some(Uri.Utf8String(v.value))
  {
    if Truthy(v) then
      Uri.DecodeEncode(v.value);
      [Param("search", Uri.EncodeURIComponent(v.value))]
    else []
  }

  /** The `filters` object of loadAllUsers. */
  datatype UserFilters = UserFilters(role: Option<string>, status: Option<string>, search: Option<string>)

  const NoFilters := UserFilters(None, None, None)

  /** The query of loadAllUsers: page and limit, then role, status and the
      encoded search, each only when truthy, in that order. */
  function UsersParams(page: int, limit: int, filters: UserFilters): seq<Param> {
    [Param("page", IntToString(page)), Param("limit", IntToString(limit))]
    + OptionalParam("role", filters.role)
    + OptionalParam("status", filters.status)
    + SearchParam(filters.search)
  }

  /** The query of loadAllTechnicians: page and limit, then status and the
      encoded search, each only when truthy. */
  function TechniciansParams(page: int, limit: int, status: Option<string>, search: Option<string>): seq<Param> {
    [Param("page", IntToString(page)), Param("limit", IntToString(limit))]
    + OptionalParam("status", status)
    + SearchParam(search)
  }

  /** The query of loadPendingReviews: page 1, limit 20, then the value of
      the status selector when it is not empty. */
  function PendingReviewsParams(filterStatus: string): seq<Param> {
    [Param("page", "1"), Param("limit", "20")] + OptionalParam("status", Some(filterStatus))
  }

  /** The endpoint loadAllUsers builds. */
  method UsersEndpoint(page: int, limit: int, filters: UserFilters) returns (endpoint: string)
    ensures endpoint == WithQuery("/admin/users", UsersParams(page, limit, filters))
  {
    ghost var path := "/admin/users";
    ghost var ps0 := [Param("page", IntToString(page)), Param("limit", IntToString(limit))];
    endpoint := "/admin/users" + "?page=" + IntToString(page) + "&limit=" + IntToString(limit);
    BaseQuery(path, IntToString(page), IntToString(limit));
    assert endpoint == WithQuery(path, ps0);
    ghost var ps1 := ps0 + OptionalParam("role", filters.role);
    if Truthy(filters.role) {
      AppendParam(path, ps0, endpoint, "role", filters.role.value);
      assert "&role=" == "&" + "role" + "=";
      endpoint := endpoint + "&role=" + filters.role.value;
    } else {
      assert ps1 == ps0;
    }
    assert endpoint == WithQuery(path, ps1);
    ghost var ps2 := ps1 + OptionalParam("status", filters.status);
    if Truthy(filters.status) {
      AppendParam(path, ps1, endpoint, "status", filters.status.value);
      assert "&status=" == "&" + "status" + "=";
      endpoint := endpoint + "&status=" + filters.status.value;
    } else {
      assert ps2 == ps1;
    }
    assert endpoint == WithQuery(path, ps2);
    ghost var ps3 := ps2 + SearchParam(filters.search);
    if Truthy(filters.search) {
      var encoded := Uri.EncodeURIComponent(filters.search.value);
      AppendParam(path, ps2, endpoint, "search", encoded);
      assert "&search=" == "&" + "search" + "=";
      endpoint := endpoint + "&search=" + encoded;
    } else {
      assert ps3 == ps2;
    }
    assert endpoint == WithQuery(path, ps3);
    assert ps3 == UsersParams(page, limit, filters);
  }

  /** The endpoint loadAllTechnicians builds. */
  method TechniciansEndpoint(page: int, limit: int, status: Option<string>, search: Option<string>)
    returns (endpoint: string)
    ensures endpoint == WithQuery("/admin/technicians", TechniciansParams(page, limit, status, search))
  {
    ghost var path := "/admin/technicians";
    ghost var ps0 := [Param("page", IntToString(page)), Param("limit", IntToString(limit))];
    endpoint := "/admin/technicians" + "?page=" + IntToString(page) + "&limit=" + IntToString(limit);
    BaseQuery(path, IntToString(page), IntToString(limit));
    assert endpoint == WithQuery(path, ps0);
    ghost var ps1 := ps0 + OptionalParam("status", status);
    if Truthy(status) {
      AppendParam(path, ps0, endpoint, "status", status.value);
      assert "&status=" == "&" + "status" + "=";
      endpoint := endpoint + "&status=" + status.value;
    } else {
      assert ps1 == ps0;
    }
    assert endpoint == WithQuery(path, ps1);
    ghost var ps2 := ps1 + SearchParam(search);
    if Truthy(search) {
      var encoded := Uri.EncodeURIComponent(search.value);
      AppendParam(path, ps1, endpoint, "search", encoded);
      assert "&search=" == "&" + "search" + "=";
      endpoint := endpoint + "&search=" + encoded;
    } else {
      assert ps2 == ps1;
    }
    assert endpoint == WithQuery(path, ps2);
    assert ps2 == TechniciansParams(page, limit, status, search);
  }

  /** The endpoint loadPendingReviews builds from the status selector. */
  method PendingReviewsEndpoint(filterStatus: string) returns (endpoint: string)
    ensures endpoint == WithQuery("/kyc-admin/technicians/pending-review", PendingReviewsParams(filterStatus))
  {
    ghost var path := "/kyc-admin/technicians/pending-review";
    ghost var ps := [Param("page", "1"), Param("limit", "20")];
    endpoint := "/kyc-admin/technicians/pending-review?page=1&limit=20";
    BaseQuery(path, "1", "20");
    assert endpoint == WithQuery(path, ps);
    if filterStatus != "" {
      AppendParam(path, ps, endpoint, "status", filterStatus);
      assert "&status=" == "&" + "status" + "=";
      ps := ps + [Param("status", filterStatus)];
      endpoint := endpoint + "&status=" + filterStatus;
      assert endpoint == WithQuery(path, ps);
    }
    assert ps == PendingReviewsParams(filterStatus);
  }

  // ---------------------------------------------------------------------
  // Reading a query string back

  /** Splits at every `&`. */
  function Fields(q: string): (r: seq<string>)
    ensures |r| >= 1
    decreases |q|
  {
    var i := IndexOf(q, '&');
    if i < 0 then [q] else [q[..i]] + Fields(q[i + 1..])
  }

  /** Splits one field at its first `=`. */
  function ParseField(f: string): Param {
    var i := IndexOf(f, '=');
    if i < 0 then Param(f, "") else Param(f[..i], f[i + 1..])
  }

  /** Each field read as a pair. */
  function ParseFields(fs: seq<string>): (ps: seq<Param>)
    ensures |ps| == |fs|
  {
    if fs == [] then [] else [ParseField(fs[0])] + ParseFields(fs[1..])
  }

  /** The pairs of a query string. */
  function ParseQuery(q: string): seq<Param> {
    ParseFields(Fields(q))
  }

  /** No `&` in the key or the value, no `=` in the key. */
  predicate Separable(p: Param) {
    '&' !in p.key && '=' !in p.key && '&' !in p.value
  }

  /** The first `c` after a prefix free of it sits right after the prefix. */
  lemma IndexAfter(a: string, c: char, b: string)
    requires c !in a
    ensures IndexOf(a + [c] + b, c) == |a|
  {
    var s := a + [c] + b;
    assert s[|a|] == c;
    assert s[..|a|] == a;
  }

  lemma FieldParses(p: Param)
    requires Separable(p)
    ensures ParseField(Field(p)) == p
    ensures '&' !in Field(p)
  {
    IndexAfter(p.key, '=', p.value);
    var f := Field(p);
    assert f == p.key + ['='] + p.value;
    assert f[..|p.key|] == p.key;
    assert f[|p.key| + 1..] == p.value;
  }

  /** A field free of `&` is the first of the split. */
  lemma FieldsCons(f: string, rest: string)
    requires '&' !in f
    ensures Fields(f + "&" + rest) == [f] + Fields(rest)
  {
    var q := f + "&" + rest;
    assert q == f + ['&'] + rest;
    IndexAfter(f, '&', rest);
    assert q[..|f|] == f;
    assert q[|f| + 1..] == rest;
  }

  /** Joining and splitting are inverse for pairs that hold no separator. */
  lemma {:induction false} ParseJoin(ps: seq<Param>)
    requires ps != []
    requires forall i :: 0 <= i < |ps| ==> Separable(ps[i])
    ensures ParseQuery(Join(ps)) == ps
  {
    FieldParses(ps[0]);
    var f := Field(ps[0]);
    if |ps| == 1 {
      assert Fields(f) == [f];
      assert ParseFields([f]) == [ParseField(f)];
    } else {
      var rest := Join(ps[1..]);
      ParseJoin(ps[1..]);
      FieldsCons(f, rest);
      var fs := [f] + Fields(rest);
      assert fs[1..] == Fields(rest);
      assert ParseFields(fs) == [ParseField(f)] + ParseFields(Fields(rest));
      HeadTail(ps);
    }
  }

  /** Every pair of the list is separable. */
  predicate AllSeparable(ps: seq<Param>) {
    forall i :: 0 <= i < |ps| ==> Separable(ps[i])
  }

  lemma AllSeparableConcat(a: seq<Param>, b: seq<Param>)
    requires AllSeparable(a) && AllSeparable(b)
    ensures AllSeparable(a + b)
  {
  }

  /** A rendered number holds no `&`. */
  lemma NumberHasNoAmpersand(n: int)
    ensures '&' !in IntToString(n)
  {
    var d := NatToString(if n < 0 then -n else n);
    assert forall i :: 0 <= i < |d| ==> d[i] != '&';
  }

  /** An encoded search term holds no `&`. */
  lemma EncodedHasNoAmpersand(s: string)
    ensures '&' !in Uri.EncodeURIComponent(s)
  {
    Uri.EncodedIsSafe(s);
  }

  /** The fixed query keys hold neither `&` nor `=`. */
  lemma KeysHaveNoSeparators()
    ensures '&' !in "page" && '=' !in "page" && '&' !in "limit" && '=' !in "limit"
    ensures '&' !in "search" && '=' !in "search"
  {
  }

  /** The page and limit pairs are separable. */
  lemma BaseSeparable(page: int, limit: int)
    ensures AllSeparable([Param("page", IntToString(page)), Param("limit", IntToString(limit))])
  {
    NumberHasNoAmpersand(page);
    NumberHasNoAmpersand(limit);
    KeysHaveNoSeparators();
  }

  /** An optional filter pair is separable when its value holds no `&`. */
  lemma OptionalSeparable(key: string, v: Option<string>)
    requires '&' !in key && '=' !in key
    requires v.Some? ==> '&' !in v.value
    ensures AllSeparable(OptionalParam(key, v))
  {
  }

  /** The search pair is always separable. */
  lemma SearchSeparable(v: Option<string>)
    ensures AllSeparable(SearchParam(v))
  {
    if Truthy(v) {
      var p := Param("search", Uri.EncodeURIComponent(v.value));
      assert SearchParam(v) == [p];
      EncodedHasNoAmpersand(v.value);
      KeysHaveNoSeparators();
      assert Separable(p);
    }
  }

  /** Every pair of the users query is separable when the raw role and
      status values hold no `&`. */
  lemma UsersParamsSeparable(page: int, limit: int, filters: UserFilters)
    requires filters.role.Some? ==> '&' !in filters.role.value
    requires filters.status.Some? ==> '&' !in filters.status.value
    ensures AllSeparable(UsersParams(page, limit, filters))
  {
    var base := [Param("page", IntToString(page)), Param("limit", IntToString(limit))];
    var role, status, search := OptionalParam("role", filters.role), OptionalParam("status", filters.status), SearchParam(filters.search);
    BaseSeparable(page, limit);
    assert '&' !in "role" && '=' !in "role" && '&' !in "status" && '=' !in "status";
    OptionalSeparable("role", filters.role);
    OptionalSeparable("status", filters.status);
    SearchSeparable(filters.search);
    AllSeparableConcat(base, role);
    AllSeparableConcat(base + role, status);
    AllSeparableConcat(base + role + status, search);
  }

  /** Every pair of the technicians query is separable when the raw status
      value holds no `&`. */
  lemma TechniciansParamsSeparable(page: int, limit: int, status: Option<string>, search: Option<string>)
    requires status.Some? ==> '&' !in status.value
    ensures AllSeparable(TechniciansParams(page, limit, status, search))
  {
    var base := [Param("page", IntToString(page)), Param("limit", IntToString(limit))];
    BaseSeparable(page, limit);
    assert '&' !in "status" && '=' !in "status";
    OptionalSeparable("status", status);
    SearchSeparable(search);
    AllSeparableConcat(base, OptionalParam("status", status));
    AllSeparableConcat(base + OptionalParam("status", status), SearchParam(search));
  }

  /** The users endpoint reads back as exactly its pairs, provided the role
      and status values hold no `&`; the search term is percent-encoded and
      needs no such condition. The technicians endpoint likewise. */
  lemma QueriesReadBack(page: int, limit: int, filters: UserFilters)
    requires filters.role.Some? ==> '&' !in filters.role.value
    requires filters.status.Some? ==> '&' !in filters.status.value
    ensures ParseQuery(Join(UsersParams(page, limit, filters))) == UsersParams(page, limit, filters)
    ensures ParseQuery(Join(TechniciansParams(page, limit, filters.status, filters.search)))
         == TechniciansParams(page, limit, filters.status, filters.search)
  {
    UsersParamsSeparable(page, limit, filters);
    TechniciansParamsSeparable(page, limit, filters.status, filters.search);
    ParseJoin(UsersParams(page, limit, filters));
    ParseJoin(TechniciansParams(page, limit, filters.status, filters.search));
  }

  // ---------------------------------------------------------------------
  // filterUsers and the search boxes

  /** The filters filterUsers(role) hands to loadAllUsers(1, 10, ...):
      none for "all", the role otherwise. */
  function FilterUsers(role: string): (f: UserFilters)
    ensures f.status == None && f.search == None
    ensures f.role == None <==> role == "all"
    ensures role != "all" ==> f.role == Some(role)
  {
    if role == "all" then NoFilters else UserFilters(Some(role), None, None)
  }

  /** filterUsers("all") (and the empty role, which is falsy) requests the
      first unfiltered page; any other role adds exactly `role=<role>`. */
  lemma FilterUsersQuery(role: string)
    ensures UsersParams(1, 10, FilterUsers(role))
         == [Param("page", "1"), Param("limit", "10")]
            + (if role == "all" || role == "" then [] else [Param("role", role)])
  {
    assert IntToString(1) == "1" && IntToString(10) == "10";
  }

  /** What a search box does once typing pauses. */
  datatype SearchAction =
    | SearchFor(term: string)   // reload with `search` set to the trimmed term
    | ReloadUnfiltered          // reload with the defaults
    | KeepWaiting               // do nothing

  /** The dispatch rule of both search boxes, on the box's raw value: a
      trimmed term of two or more characters searches, an empty one
      reloads, a single character does nothing. */
  function SearchDispatch(input: string): (a: SearchAction)
    ensures a.SearchFor? <==> |Trim(input)| >= 2
    ensures a.SearchFor? ==> a.term == Trim(input) && a.term != ""
    ensures a == ReloadUnfiltered <==> forall i :: 0 <= i < |input| ==> IsSpace(input[i])
    ensures a == KeepWaiting <==> |Trim(input)| == 1
  {
    var term := Trim(input);
    if |term| >= 2 then SearchFor(term)
    else if |term| == 0 then ReloadUnfiltered
    else KeepWaiting
  }

  /** The filters the user search box passes to loadAllUsers(1, 10, ...),
      and the (status, search) it passes to loadAllTechnicians(1, 10, ...);
      `None` when it does nothing. */
  function SearchFilters(a: SearchAction): Option<UserFilters> {
    match a
    case SearchFor(term) => Some(UserFilters(None, None, Some(term)))
    case ReloadUnfiltered => Some(NoFilters)
    case KeepWaiting => None
  }

  /** A search that fires puts the trimmed term, percent-encoded, as the
      last pair of the users and technicians queries: decoding that value
      gives back the UTF-8 octets of the term. */
  lemma SearchReachesQuery(input: string)
    requires SearchDispatch(input).SearchFor?
    ensures var f := SearchFilters(SearchDispatch(input)).value;
            var ps := UsersParams(1, 10, f);
            && ps == [Param("page", "1"), Param("limit", "10"), Param("search", Uri.EncodeURIComponent(Trim(input)))]
            && Uri.PercentDecode(ps[2].value) == Some(Uri.Utf8String(Trim(input)))
            && TechniciansParams(1, 10, f.status, f.search) == ps
  {
    var t := Trim(input);
    assert SearchFilters(SearchDispatch(input)).value == UserFilters(None, None, Some(t));
    SearchQuery(t);
    Uri.DecodeEncode(t);
  }

  /** A blank search box reloads both lists with their defaults: the first
      page of ten, with no filter pair at all. */
  lemma ReloadQuery(input: string)
    requires SearchDispatch(input) == ReloadUnfiltered
    ensures SearchFilters(SearchDispatch(input)).Some?
    ensures var f := SearchFilters(SearchDispatch(input)).value;
            && UsersParams(1, 10, f) == [Param("page", "1"), Param("limit", "10")]
            && TechniciansParams(1, 10, f.status, f.search) == UsersParams(1, 10, f)
  {
    assert IntToString(1) == "1" && IntToString(10) == "10";
  }

  /** A single non-space character issues no request from either box. */
  lemma WaitingSendsNothing(input: string)
    requires |Trim(input)| == 1
    ensures SearchFilters(SearchDispatch(input)).None?
  {
  }

  /** The first-page query of a search for a non-empty term. */
  lemma SearchQuery(t: string)
    requires t != ""
    ensures UsersParams(1, 10, UserFilters(None, None, Some(t)))
         == [Param("page", "1"), Param("limit", "10"), Param("search", Uri.EncodeURIComponent(t))]
    ensures TechniciansParams(1, 10, None, Some(t)) == UsersParams(1, 10, UserFilters(None, None, Some(t)))
  {
    var base := [Param("page", IntToString(1)), Param("limit", IntToString(10))];
    assert IntToString(1) == "1" && IntToString(10) == "10";
    assert OptionalParam("role", None) == [] && OptionalParam("status", None) == [];
    assert UsersParams(1, 10, UserFilters(None, None, Some(t))) == base + SearchParam(Some(t));
  }
}
