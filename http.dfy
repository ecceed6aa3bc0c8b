/** The request that `makeAuthenticatedRequest` hands to `fetch`, and what
    `fetch` can produce. The network itself is not modelled: the model is
    given the reply as an input. */
module Http {
  import opened Wrappers

  /** The fixed root every endpoint is appended to. */
  const ApiBaseUrl := "https://techiproconnect.onrender.com/api/v1"

  const AuthorizationHeader := "Authorization"
  const ContentTypeHeader := "Content-Type"
  const JsonMediaType := "application/json"

  /** The JSON bodies the dashboard sends, before `JSON.stringify`. */
  datatype Payload =
    | VerificationPayload(decision: Option<string>, adminNotes: string)
    | CategoryPayload(name: string, description: string, isActive: bool)

  /** The `options` argument of makeAuthenticatedRequest: the method (`verb`), the
      caller's own headers (an absent `headers` object is the empty map)
      and the body. */
  datatype Options = Options(verb: Option<string>, headers: map<string, string>, body: Option<Payload>)

  /** `options = {}`, the default. */
  const NoOptions := Options(None, map[], None)

  /** The URL and init object handed to `fetch`. */
  datatype Request = Request(url: string, verb: Option<string>, headers: map<string, string>, body: Option<Payload>)

  /** The method `fetch` uses: the given one, or GET. */
  function EffectiveMethod(r: Request): string {
    r.verb.GetOr("GET")
  }

  /** What `fetch` produced: a response with a status code, or a rejected
      promise (DNS failure, refused connection, ...). */
  datatype Reply = Answered(status: int) | TransportFault

  /** `response.ok`: a 2xx status. Neither status the request guard
      handles itself (401, 403) is ok. */
  predicate IsOk(status: int)
    ensures IsOk(status) ==> status != 401 && status != 403
  {
    200 <= status <= 299
  }

  /** The headers makeAuthenticatedRequest starts from. */
  function DefaultHeaders(token: string): map<string, string> {
    map[AuthorizationHeader := "Bearer " + token, ContentTypeHeader := JsonMediaType]
  }

  /** The request issued for `endpoint` with `options` under `token`. The
      URL is the base URL followed by the endpoint; method and body pass
      through; the headers are the bearer token and the JSON content type,
      overlaid by the caller's headers, so that on a name they share the
      caller's value is the one sent. */
  function BuildRequest(token: string, endpoint: string, options: Options): (r: Request)
    ensures r.url == ApiBaseUrl + endpoint
    ensures r.verb == options.verb && r.body == options.body
    ensures r.headers.Keys == {AuthorizationHeader, ContentTypeHeader} + options.headers.Keys
    ensures forall k :: k in options.headers ==> r.headers[k] == options.headers[k]
    ensures AuthorizationHeader !in options.headers ==> r.headers[AuthorizationHeader] == "Bearer " + token
    ensures ContentTypeHeader !in options.headers ==> r.headers[ContentTypeHeader] == JsonMediaType
  {
    Request(ApiBaseUrl + endpoint, options.verb, DefaultHeaders(token) + options.headers, options.body)
  }

  /** A caller that supplies its own Authorization header sends that value,
      whatever the stored token is. */
  lemma CallerAuthorizationWins(token1: string, token2: string, endpoint: string, options: Options)
    requires AuthorizationHeader in options.headers
    ensures BuildRequest(token1, endpoint, options).headers[AuthorizationHeader] == options.headers[AuthorizationHeader]
    ensures BuildRequest(token1, endpoint, options) == BuildRequest(token2, endpoint, options)
  {
    var a := DefaultHeaders(token1) + options.headers;
    var b := DefaultHeaders(token2) + options.headers;
    assert a == b;
  }

  /** Without caller headers the request carries exactly the two defaults,
      and a GET is issued. */
  lemma PlainRequest(token: string, endpoint: string)
    ensures BuildRequest(token, endpoint, NoOptions).headers == DefaultHeaders(token)
    ensures EffectiveMethod(BuildRequest(token, endpoint, NoOptions)) == "GET"
  {
  }
}
