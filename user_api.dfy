/** The fetch-based users gateway: request construction (URL, method,
    headers, body) for the five user operations, the fail-fast check for a
    missing token, and the classification of the response, where a 401 logs
    the session out. The network round trip itself is an input: the response
    the server would give. */
module UserApi {
  import opened Wrappers
  import opened Text
  import opened UriEncoding
  import opened UserTypes
  import AuthStore

  datatype HttpMethod = GET | POST | PUT | DELETE

  datatype Header = Header(name: string, value: string)

  datatype Request = Request(url: string, verb: HttpMethod, headers: seq<Header>, body: Option<UserInput>)

  /** The five calls of the gateway with their arguments. */
  datatype Operation =
    | GetUsers(search: Option<string>)
    | GetUser(id: string)
    | CreateUser(input: UserInput)
    | UpdateUser(id: string, input: UserInput)
    | DeleteUser(id: string)

  const AuthenticationRequired := "Authentication required"
  const SessionExpired := "Your session has expired. Please login again."
  const UsersPath := "/api/users"
  const SearchPrefix := "/api/users?search="

  /** The bearer credential of section 2.1 of RFC 6750. */
  function Bearer(token: string): string {
    "Bearer " + token
  }

  /** `getAuthHeaders`: the two headers for a present, non-empty token; otherwise the "Authentication required" error. */
  function AuthHeaders(token: Option<string>): (r: Result<seq<Header>, string>)
    ensures r.Failure? <==> !Truthy(token)
    ensures r.Failure? ==> r.error == AuthenticationRequired
    ensures r.Success? ==> r.value == [Header("Authorization", Bearer(token.value)), Header("Content-Type", "application/json")]
  {
    if !Truthy(token) then Failure(AuthenticationRequired)
    else Success([Header("Authorization", Bearer(token.value)), Header("Content-Type", "application/json")])
  }

  /** The list URL for a non-empty term: the prefix, then the encoded term, which decodes back to the term. */
  lemma SearchUrlShape(term: string)
    requires term != ""
    ensures var url := SearchPrefix + EncodeURIComponent(term);
      && |url| > |SearchPrefix|
      && url[..|SearchPrefix|] == SearchPrefix
      && DecodeURIComponent(url[|SearchPrefix|..]) == Some(term)
      && forall i :: |SearchPrefix| <= i < |url| ==> Unreserved(url[i]) || url[i] == '%'
  {
    var encoded := EncodeURIComponent(term);
    EncodeDecodeRoundTrip(term);
    assert encoded != [] by {
      assert DecodeURIComponent([]) == Some([]);
    }
    var n := |SearchPrefix|;
    var url := SearchPrefix + encoded;
    assert url[..n] == SearchPrefix;
    assert url[n..] == encoded;
    forall i | n <= i < |url|
      ensures Unreserved(url[i]) || url[i] == '%'
    {
      assert url[i] == encoded[i - n];
    }
  }

  /** The list URL: no query for an absent or empty search, else one `search` parameter whose value
      decodes back to the term and holds only unreserved characters and '%'. */
  function UsersUrl(search: Option<string>): (url: string)
    ensures !Truthy(search) ==> url == UsersPath
    ensures Truthy(search) ==>
      && |url| > |SearchPrefix|
      && url[..|SearchPrefix|] == SearchPrefix
      && DecodeURIComponent(url[|SearchPrefix|..]) == Some(search.value)
      && forall i :: |SearchPrefix| <= i < |url| ==> Unreserved(url[i]) || url[i] == '%'
  {
    if Truthy(search) then
      SearchUrlShape(search.value);
      SearchPrefix + EncodeURIComponent(search.value)
    else UsersPath
  }

  /** The URL of one user: the id is appended as it is, without encoding. */
  function ItemUrl(id: string): (url: string)
    ensures |url| == |UsersPath| + 1 + |id| && url[..|UsersPath| + 1] == UsersPath + "/" && url[|UsersPath| + 1..] == id
  {
    UsersPath + "/" + id
  }

  /** The request each operation sends with the given headers. */
  function RequestFor(op: Operation, headers: seq<Header>): (rq: Request)
    ensures rq.headers == headers
    ensures rq.verb == GET <==> op.GetUsers? || op.GetUser?
    ensures rq.verb == POST <==> op.CreateUser?
    ensures rq.verb == PUT <==> op.UpdateUser?
    ensures rq.verb == DELETE <==> op.DeleteUser?
    ensures rq.body.Some? <==> op.CreateUser? || op.UpdateUser?
    ensures rq.body.Some? ==> rq.body.value == op.input
    ensures op.GetUsers? ==> rq.url == UsersUrl(op.search)
    ensures op.CreateUser? ==> rq.url == UsersPath
    ensures (op.GetUser? || op.UpdateUser? || op.DeleteUser?) ==> rq.url == ItemUrl(op.id)
  {
    match op
    case GetUsers(search) => Request(UsersUrl(search), GET, headers, None)
    case GetUser(id) => Request(ItemUrl(id), GET, headers, None)
    case CreateUser(input) => Request(UsersPath, POST, headers, Some(input))
    case UpdateUser(id, input) => Request(ItemUrl(id), PUT, headers, Some(input))
    case DeleteUser(id) => Request(ItemUrl(id), DELETE, headers, None)
  }

  /** The request an operation issues with the store's token, or the error thrown before any request. */
  function BuildRequest(op: Operation, token: Option<string>): (r: Result<Request, string>)
    ensures r.Failure? <==> !Truthy(token)
    ensures r.Failure? ==> r.error == AuthenticationRequired
    ensures r.Success? ==> r.value == RequestFor(op, AuthHeaders(token).value)
  {
    match AuthHeaders(token)
    case Failure(e) => Failure(e)
    case Success(headers) => Success(RequestFor(op, headers))
  }

  /** A response as `fetch` resolves it: the status code and the parsed JSON body. */
  datatype Response<T> = Response(status: nat, body: T) {
    /** `response.ok`: a status in the range 200 to 299. */
    predicate Ok() {
      200 <= status <= 299
    }
  }

  /** `handleApiResponse` as a value: the parsed body for an ok response, else the error it throws. */
  function Classify<T>(resp: Response<T>): (r: Result<T, string>)
    ensures r.Success? <==> resp.Ok()
    ensures r.Success? ==> r.value == resp.body
    ensures resp.status == 401 ==> r == Failure(SessionExpired)
    ensures !resp.Ok() && resp.status != 401 ==> r == Failure("API Error: " + Decimal(resp.status))
  {
    if !resp.Ok() then
      if resp.status == 401 then Failure(SessionExpired)
      else Failure("API Error: " + Decimal(resp.status))
    else Success(resp.body)
  }

  /** `handleApiResponse`: a 401 also logs the session out; any other response leaves the store alone. */
  method HandleApiResponse<T>(store: AuthStore.Store, resp: Response<T>) returns (r: Result<T, string>)
    modifies store
    ensures r == Classify(resp)
    ensures store.State() == if resp.status == 401 then AuthStore.LoggedOut else old(store.State())
    ensures old(store.Valid()) ==> store.Valid()
  {
    if !resp.Ok() {
      if resp.status == 401 {
        store.Logout();
        return Failure(SessionExpired);
      }
      return Failure("API Error: " + Decimal(resp.status));
    }
    return Success(resp.body);
  }

  /** One gateway call: build the request from the store's token (failing before any request without one),
      send it, and handle `reply`, how the awaited `fetch` ends: the response the server gives, or the
      transport failure (network error, abort) it rejects with. A rejected `fetch` propagates as it is,
      without reaching `handleApiResponse`. */
  method Call<T>(store: AuthStore.Store, op: Operation, reply: Result<Response<T>, string>) returns (sent: Option<Request>, r: Result<T, string>)
    modifies store
    ensures !Truthy(old(store.accessToken)) ==>
      sent == None && r == Failure(AuthenticationRequired) && store.State() == old(store.State())
    ensures Truthy(old(store.accessToken)) ==>
      sent == Some(RequestFor(op, AuthHeaders(old(store.accessToken)).value))
    ensures Truthy(old(store.accessToken)) && reply.Failure? ==>
      r == Failure(reply.error) && store.State() == old(store.State())
    ensures Truthy(old(store.accessToken)) && reply.Success? ==>
      && r == Classify(reply.value)
      && store.State() == if reply.value.status == 401 then AuthStore.LoggedOut else old(store.State())
    ensures old(store.Valid()) ==> store.Valid()
  {
    var request := BuildRequest(op, store.accessToken);
    if request.Failure? {
      return None, Failure(request.error);
    }
    sent := Some(request.value);
    if reply.Failure? {
      return sent, Failure(reply.error);
    }
    r := HandleApiResponse(store, reply.value);
  }

  // ---------------------------------------------------------------------------
  // Properties of the gateway.

  /** Distinct search terms give distinct list URLs: the encoding never merges two terms. */
  lemma SearchUrlInjective(a: string, b: string)
    requires a != "" && b != "" && UsersUrl(Some(a)) == UsersUrl(Some(b))
    ensures a == b
  {
    var n := |SearchPrefix|;
    assert UsersUrl(Some(a))[n..] == UsersUrl(Some(b))[n..];
  }

  /** The encoded term holds no '&', '=', '#', '?' or space, so a search can never add a query parameter or a fragment. */
  lemma SearchAddsNoParameter(term: string)
    requires term != ""
    ensures forall i :: |SearchPrefix| <= i < |UsersUrl(Some(term))| ==>
      UsersUrl(Some(term))[i] !in {'&', '=', '#', '?', ' '}
  {
  }

  /** An absent and an empty search both ask for the whole list. */
  lemma EmptySearchIsNoSearch()
    ensures UsersUrl(None) == UsersUrl(Some("")) == "/api/users"
  {
  }

  /** Unlike the search term, an id is not encoded: an id holding '?' puts a query into the item URL. */
  lemma IdIsNotEncoded()
    ensures ItemUrl("7?x=1") == "/api/users/7?x=1"
  {
  }

  /** Error messages name the status, so different failing statuses are reported differently. */
  lemma ErrorMessagesDistinguishStatuses<T>(a: Response<T>, b: Response<T>)
    requires !a.Ok() && !b.Ok() && a.status != 401 && b.status != 401
    requires Classify(a) == Classify(b)
    ensures a.status == b.status
  {
    var pre := "API Error: ";
    assert Classify(a).error[|pre|..] == Decimal(a.status);
    assert Classify(b).error[|pre|..] == Decimal(b.status);
    DecimalInjective(a.status, b.status);
  }
}
