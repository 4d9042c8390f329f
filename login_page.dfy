/** The login page's submit handler. It runs in two steps around the awaited
    request: `Submit` clears the error, validates the two fields and, when they
    are filled, raises `isLoading` and issues the request; `Settle` handles the
    reply (or the thrown failure) when it arrives. The mount-time redirect for a
    session that is still valid is `RedirectIfAuthenticated`. */
module LoginPage {
  import opened Wrappers
  import opened AuthStore

  const FillRequired := "Fill required fields."
  const TryAgain := "An error occurred. Please try again."
  const LoginUrl := "/api/login"

  /** The POST to the login endpoint with the JSON body `{email, password}`. */
  datatype LoginRequest = LoginRequest(url: string, email: string, password: string)

  datatype TokenData = TokenData(accessToken: string, expiresIn: int)

  /** `data.result`: the message and, on success, the token data. */
  datatype ReplyResult = ReplyResult(message: string, data: Option<TokenData>)

  /** How the awaited request ends: a failure thrown by `fetch` or `json()`, or a parsed body.
      `httpStatus` is the response's own status; `status` is the body's `status` field. */
  datatype LoginReply =
    | Threw
    | Body(httpStatus: nat, status: Option<int>, result: Option<ReplyResult>)

  /** The two state cells the handler sets. */
  datatype FormState = FormState(isLoading: bool, error: string)

  /** What the first step does: the request issued, if any, and the state while it is awaited. */
  datatype SubmitStep = SubmitStep(request: Option<LoginRequest>, after: FormState)

  function Submitted(f: FormState, email: string, password: string): (s: SubmitStep)
    ensures email == "" || password == "" ==> s == SubmitStep(None, f.(error := FillRequired))
    ensures email != "" && password != "" ==>
      s.request == Some(LoginRequest(LoginUrl, email, password)) && s.after == FormState(true, "")
  {
    if email == "" || password == "" then SubmitStep(None, f.(error := FillRequired))
    else SubmitStep(Some(LoginRequest(LoginUrl, email, password)), FormState(true, ""))
  }

  /** What the second step does: the state afterwards and the `login` call made, if any. */
  datatype Outcome = Outcome(after: FormState, login: Option<TokenData>)

  function SettledWith(f: FormState, reply: LoginReply): (o: Outcome)
    ensures o.login.Some? <==>
      reply.Body? && reply.status != Some(401) && reply.result.Some? && reply.result.value.data.Some?
    ensures o.login.Some? ==> o.login == reply.result.value.data && o.after == f
    ensures reply.Body? && reply.status == Some(401) && reply.result.Some? ==>
      o == Outcome(FormState(false, reply.result.value.message), None)
    ensures o.login.None? && !(reply.Body? && reply.status == Some(401) && reply.result.Some?) ==>
      o == Outcome(FormState(false, TryAgain), None)
  {
    match reply
    case Threw => Outcome(FormState(false, TryAgain), None)
    case Body(_, status, result) =>
      if result.None? then Outcome(FormState(false, TryAgain), None)   // reading `data.result.…` throws
      else if status == Some(401) then Outcome(FormState(false, result.value.message), None)
      else if result.value.data.None? then Outcome(FormState(false, TryAgain), None)
      else Outcome(f, result.value.data)
  }

  class LoginForm {
    var email: string
    var password: string
    var isLoading: bool
    var error: string

    function State(): FormState
      reads this
    {
      FormState(isLoading, error)
    }

    constructor ()
      ensures email == "" && password == "" && State() == FormState(false, "")
    {
      email, password, isLoading, error := "", "", false, "";
    }

    /** `handleEmailChange`: stores the typed value and nothing else. */
    method SetEmail(v: string)
      modifies this`email
      ensures email == v && password == old(password) && State() == old(State())
    {
      email := v;
    }

    /** `handlePasswordChange`: stores the typed value and nothing else. */
    method SetPassword(v: string)
      modifies this`password
      ensures password == v && email == old(email) && State() == old(State())
    {
      password := v;
    }

    /** `handleSubmit` up to the awaited `fetch`. */
    method Submit() returns (request: Option<LoginRequest>)
      modifies this`isLoading, this`error
      ensures SubmitStep(request, State()) == Submitted(old(State()), email, password)
      ensures request.Some? ==> isLoading
    {
      error := "";
      if email == "" || password == "" {
        error := FillRequired;
        return None;
      }
      isLoading := true;
      request := Some(LoginRequest(LoginUrl, email, password));
    }

    /** `handleSubmit` after the awaited request: `reply` is how it ended. */
    method Settle(store: Store, reply: LoginReply)
      modifies this`isLoading, this`error, store
      ensures State() == SettledWith(old(State()), reply).after
      ensures var login := SettledWith(old(State()), reply).login;
        store.State() == if login.Some? then LoggedIn(login.value.accessToken, login.value.expiresIn) else old(store.State())
      ensures old(store.Valid()) ==> store.Valid()
    {
      if reply.Threw? || reply.result.None? {
        error, isLoading := TryAgain, false;
        return;
      }
      var result := reply.result.value;
      if reply.status == Some(401) {
        error, isLoading := result.message, false;
        return;
      }
      if result.data.None? {
        error, isLoading := TryAgain, false;
        return;
      }
      store.Login(result.data.value.accessToken, result.data.value.expiresIn);
    }

    /** The mount-time effect: redirect when the store says authenticated and `checkAuth` agrees at `now`. */
    method RedirectIfAuthenticated(store: Store, now: int) returns (redirect: bool)
      modifies store
      ensures redirect == (old(store.isAuthenticated) && Check(old(store.State()), now).authenticated)
      ensures store.State() == if old(store.isAuthenticated) then Check(old(store.State()), now).after else old(store.State())
      ensures old(store.Valid()) ==> store.Valid()
    {
      redirect := false;
      if store.isAuthenticated {
        redirect := store.CheckAuth(now);
      }
    }
  }

  // ---------------------------------------------------------------------------
  // Properties of the handler.

  /** An empty field sets the required-fields message, issues nothing and never raises `isLoading`. */
  lemma EmptyFieldIssuesNothing(f: FormState, email: string, password: string)
    requires email == "" || password == ""
    ensures Submitted(f, email, password).request.None?
    ensures Submitted(f, email, password).after.error == FillRequired
    ensures !f.isLoading ==> !Submitted(f, email, password).after.isLoading
  {
  }

  /** A body with status 401 reports the server's message and does not log in, even when it carries a token. */
  lemma RejectedBodyNeverLogsIn(f: FormState, httpStatus: nat, message: string, data: Option<TokenData>)
    ensures SettledWith(f, Body(httpStatus, Some(401), Some(ReplyResult(message, data)))) == Outcome(FormState(false, message), None)
  {
  }

  /** The decision reads the body's `status` field, never the HTTP status: a 500 response whose body carries a token logs in. */
  lemma HttpStatusIgnored(f: FormState, a: nat, b: nat, status: Option<int>, result: Option<ReplyResult>)
    ensures SettledWith(f, Body(a, status, result)) == SettledWith(f, Body(b, status, result))
    ensures SettledWith(f, Body(500, None, Some(ReplyResult("", Some(TokenData("t", 1)))))).login == Some(TokenData("t", 1))
  {
  }

  /** Through both steps, a successful reply logs in and leaves the form loading with no error. */
  lemma SuccessfulSubmitStaysLoading(f: FormState, email: string, password: string, m: string, t: TokenData, status: Option<int>)
    requires email != "" && password != "" && status != Some(401)
    ensures var waiting := Submitted(f, email, password).after;
      SettledWith(waiting, Body(200, status, Some(ReplyResult(m, Some(t))))) == Outcome(FormState(true, ""), Some(t))
  {
  }

  /** Through both steps, a thrown failure ends with the generic message and `isLoading` lowered. */
  lemma FailedSubmitStopsLoading(f: FormState, email: string, password: string)
    requires email != "" && password != ""
    ensures SettledWith(Submitted(f, email, password).after, Threw) == Outcome(FormState(false, TryAgain), None)
  {
  }

  /** Every path of the handler either leaves `isLoading` raised with a login made, or lowers it. */
  lemma LoadingEndsUnlessLoggedIn(reply: LoginReply)
    ensures var o := SettledWith(FormState(true, ""), reply);
      o.login.Some? == o.after.isLoading
  {
  }
}
