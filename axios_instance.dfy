/** The shared axios client: a request interceptor that attaches the bearer
    credential from the session store, and a response interceptor that lets
    successes through and turns every failure into a rejection with a
    normalised message, logging the session out on a 401 from any URL other
    than the login endpoint. */
module AxiosInstance {
  import opened Wrappers
  import opened Text
  import AuthStore
  import UserApi

  const LoginEndpoint := "/api/login"
  const InvalidCredentials := "Invalid Credentials!"
  const UnexpectedError := "An unexpected error occurred"

  /** The per-request configuration the request interceptor receives and edits in place. */
  class RequestConfig {
    var url: Option<string>
    var headers: map<string, string>

    constructor (url: Option<string>, headers: map<string, string>)
      ensures this.url == url && this.headers == headers
    {
      this.url := url;
      this.headers := headers;
    }
  }

  /** The headers after the request interceptor: Authorization set for a truthy token, otherwise untouched. */
  function WithAuthorization(headers: map<string, string>, token: Option<string>): (h: map<string, string>)
    ensures Truthy(token) ==> "Authorization" in h && h["Authorization"] == UserApi.Bearer(token.value)
    ensures Truthy(token) ==> forall k :: k in headers && k != "Authorization" ==> k in h && h[k] == headers[k]
    ensures Truthy(token) ==> h.Keys == headers.Keys + {"Authorization"}
    ensures !Truthy(token) ==> h == headers
  {
    if Truthy(token) then headers["Authorization" := UserApi.Bearer(token.value)] else headers
  }

  /** The request interceptor: edits `config.headers` in place and hands back the same config. */
  method AttachAuthorization(config: RequestConfig, token: Option<string>) returns (out: RequestConfig)
    modifies config
    ensures out == config
    ensures config.url == old(config.url)
    ensures config.headers == WithAuthorization(old(config.headers), token)
  {
    if Truthy(token) {
      config.headers := config.headers["Authorization" := UserApi.Bearer(token.value)];
    }
    return config;
  }

  /** The part of `error.response` the interceptor reads: the status and `data.result.message`. */
  datatype ErrorResponse = ErrorResponse(status: int, serverMessage: Option<string>)

  /** An axios failure: the response if one arrived, `config.url`, and the error's own message. */
  datatype AxiosError = AxiosError(response: Option<ErrorResponse>, url: Option<string>, message: string)

  /** What a rejected request rejects with: the credential error of the login endpoint carries no
      status field; the normalised error carries the response status, absent without a response. */
  datatype Rejection =
    | CredentialRejection(message: string)
    | NormalisedRejection(message: string, status: Option<int>)

  /** The interceptor's decision for a failure: the rejection, and whether it logs out and redirects first. */
  datatype ErrorPlan = ErrorPlan(reason: Rejection, logoutAndRedirect: bool)

  predicate Unauthorized(e: AxiosError) {
    e.response.Some? && e.response.value.status == 401
  }

  /** `error.config.url?.includes('/api/login')`: false when the url is absent. */
  predicate IsLoginUrl(url: Option<string>) {
    url.Some? && Contains(url.value, LoginEndpoint)
  }

  function ServerMessage(e: AxiosError): Option<string> {
    if e.response.Some? then e.response.value.serverMessage else None
  }

  /** `a || b` for a possibly absent string a and a string b. */
  function OrElse(a: Option<string>, b: string): (r: string)
    ensures Truthy(a) ==> r == a.value
    ensures !Truthy(a) ==> r == b
  {
    if Truthy(a) then a.value else b
  }

  /** The normalised message: the server's message, else the error's message, else the generic one. */
  function NormalisedMessage(e: AxiosError): (m: string)
    ensures m != ""
    ensures Truthy(ServerMessage(e)) ==> m == ServerMessage(e).value
    ensures !Truthy(ServerMessage(e)) && e.message != "" ==> m == e.message
    ensures !Truthy(ServerMessage(e)) && e.message == "" ==> m == UnexpectedError
  {
    OrElse(ServerMessage(e), OrElse(Some(e.message), UnexpectedError))
  }

  /** The response-error interceptor as a decision. */
  function PlanResponseError(e: AxiosError): (p: ErrorPlan)
    ensures p.logoutAndRedirect <==> Unauthorized(e) && !IsLoginUrl(e.url)
    ensures p.reason.CredentialRejection? <==> Unauthorized(e) && IsLoginUrl(e.url)
    ensures p.reason.CredentialRejection? ==> p.reason.message == OrElse(ServerMessage(e), InvalidCredentials)
    ensures p.reason.NormalisedRejection? ==>
      && p.reason.message == NormalisedMessage(e)
      && p.reason.status == (if e.response.Some? then Some(e.response.value.status) else None)
    ensures p.reason.message != ""
  {
    if Unauthorized(e) && IsLoginUrl(e.url) then
      ErrorPlan(CredentialRejection(OrElse(ServerMessage(e), InvalidCredentials)), false)
    else
      var status := if e.response.Some? then Some(e.response.value.status) else None;
      ErrorPlan(NormalisedRejection(NormalisedMessage(e), status), Unauthorized(e))
  }

  /** The response-error interceptor: logs out first when the plan says so, then rejects.
      `redirect` stands for the assignment to `window.location.href`. */
  method OnResponseError(store: AuthStore.Store, e: AxiosError) returns (reason: Rejection, redirect: bool)
    modifies store
    ensures ErrorPlan(reason, redirect) == PlanResponseError(e)
    ensures store.State() == if redirect then AuthStore.LoggedOut else old(store.State())
    ensures old(store.Valid()) ==> store.Valid()
  {
    if Unauthorized(e) {
      if !IsLoginUrl(e.url) {
        store.Logout();
        redirect := true;
      } else {
        return CredentialRejection(OrElse(ServerMessage(e), InvalidCredentials)), false;
      }
    } else {
      redirect := false;
    }
    var status := if e.response.Some? then Some(e.response.value.status) else None;
    reason := NormalisedRejection(NormalisedMessage(e), status);
  }

  /** How a request through the instance ends before the interceptors run. */
  datatype Outcome<T> = Fulfilled(response: T) | Failed(error: AxiosError)

  /** How it ends after them. */
  datatype Settlement<T> = Resolved(response: T) | Rejected(reason: Rejection)

  /** Both response interceptors together: a success passes through unchanged, every failure rejects. */
  function Intercept<T>(o: Outcome<T>): (s: Settlement<T>)
    ensures s.Resolved? <==> o.Fulfilled?
    ensures o.Fulfilled? ==> s.response == o.response
    ensures o.Failed? ==> s.reason == PlanResponseError(o.error).reason
  {
    match o
    case Fulfilled(r) => Resolved(r)
    case Failed(e) => Rejected(PlanResponseError(e).reason)
  }

  // ---------------------------------------------------------------------------
  // Properties of the interceptors.

  /** The axios and the fetch layer agree: the same tokens count as absent, and a present one yields the same credential. */
  lemma AgreesWithFetchLayer(headers: map<string, string>, token: Option<string>)
    ensures UserApi.AuthHeaders(token).Failure? <==> WithAuthorization(headers, token) == headers && !Truthy(token)
    ensures UserApi.AuthHeaders(token).Success? ==>
      UserApi.AuthHeaders(token).value[0] == UserApi.Header("Authorization", WithAuthorization(headers, token)["Authorization"])
  {
  }

  /** A 401 from the login endpoint never logs out; it rejects with the server's message or "Invalid Credentials!". */
  lemma LoginFailureKeepsSession(message: Option<string>, url: string, errorMessage: string)
    requires Contains(url, LoginEndpoint)
    ensures PlanResponseError(AxiosError(Some(ErrorResponse(401, message)), Some(url), errorMessage))
      == ErrorPlan(CredentialRejection(if Truthy(message) then message.value else InvalidCredentials), false)
  {
  }

  /** A 401 from any other URL, or one without a URL, logs out and still rejects with status 401. */
  lemma SessionFailureLogsOut(message: Option<string>, url: Option<string>, errorMessage: string)
    requires !IsLoginUrl(url)
    ensures var p := PlanResponseError(AxiosError(Some(ErrorResponse(401, message)), url, errorMessage));
      p.logoutAndRedirect && p.reason.NormalisedRejection? && p.reason.status == Some(401)
  {
  }

  /** A failure without a response (a network error) keeps the session, has no status, and reports the error's own message. */
  lemma NetworkFailure(url: Option<string>, errorMessage: string)
    requires errorMessage != ""
    ensures PlanResponseError(AxiosError(None, url, errorMessage)) == ErrorPlan(NormalisedRejection(errorMessage, None), false)
  {
  }

  /** Examples: the login endpoint is recognised anywhere in the URL, also behind a base path or with a query. */
  lemma LoginUrlExamples()
    ensures IsLoginUrl(Some("/api/login"))
    ensures IsLoginUrl(Some("/v2/api/login?next=x"))
    ensures !IsLoginUrl(Some("/api/users"))
    ensures !IsLoginUrl(None)
  {
    assert OccursAt("/api/login", LoginEndpoint, 0);
    assert OccursAt("/v2/api/login?next=x", LoginEndpoint, 3);
    assert "/api/users"[0..10][5] != LoginEndpoint[5];
  }
}
