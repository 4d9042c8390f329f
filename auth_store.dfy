/** The session store: an access token, its expiry instant (seconds since
    the epoch) and an "authenticated" flag, changed by `login`, `logout` and
    `checkAuth`. The clock reading `Math.floor(Date.now() / 1000)` is the
    parameter `now`. */
module AuthStore {
  import opened Wrappers
  import opened Text

  /** The three fields of the store. */
  datatype Session = Session(accessToken: Option<string>, expiresIn: Option<int>, isAuthenticated: bool)

  /** The state of a fresh store, and the state `logout` writes. */
  const LoggedOut := Session(None, None, false)

  /** The flag agrees with the presence of a token. */
  predicate Consistent(s: Session) {
    s.isAuthenticated == s.accessToken.Some?
  }

  /** JavaScript truthiness of `expiresIn: number | null`: present and not zero. */
  predicate TruthyExpiry(e: Option<int>) {
    e.Some? && e.value != 0
  }

  /** What `checkAuth` tests before looking at the clock: `!accessToken || !expiresIn` is false. */
  predicate HasCredentials(s: Session) {
    Truthy(s.accessToken) && TruthyExpiry(s.expiresIn)
  }

  /** The state `login(t, e)` writes. */
  function LoggedIn(t: string, e: int): (s: Session)
    ensures s.isAuthenticated && s.accessToken == Some(t) && s.expiresIn == Some(e)
    ensures Consistent(s)
  {
    Session(Some(t), Some(e), true)
  }

  /** What `checkAuth` returns, and the state it leaves behind. */
  datatype Verdict = Verdict(authenticated: bool, after: Session)

  /** `checkAuth` at clock reading `now`. */
  function Check(s: Session, now: int): (v: Verdict)
    ensures v.authenticated <==> HasCredentials(s) && now <= s.expiresIn.value
    ensures v.after == (if HasCredentials(s) && now > s.expiresIn.value then LoggedOut else s)
  {
    if !HasCredentials(s) then Verdict(false, s)
    else if now > s.expiresIn.value then Verdict(false, LoggedOut)
    else Verdict(true, s)
  }

  class Store {
    var accessToken: Option<string>
    var expiresIn: Option<int>
    var isAuthenticated: bool

    function State(): Session
      reads this
    {
      Session(accessToken, expiresIn, isAuthenticated)
    }

    /** The store's invariant: the flag agrees with the presence of a token. */
    predicate Valid()
      reads this
    {
      Consistent(State())
    }

    /** A fresh store is logged out. */
    constructor ()
      ensures State() == LoggedOut
      ensures Valid()
    {
      accessToken, expiresIn, isAuthenticated := None, None, false;
    }

    method Login(t: string, e: int)
      modifies this
      ensures State() == LoggedIn(t, e)
      ensures Valid()
    {
      accessToken, expiresIn, isAuthenticated := Some(t), Some(e), true;
    }

    method Logout()
      modifies this
      ensures State() == LoggedOut
      ensures Valid()
    {
      accessToken, expiresIn, isAuthenticated := None, None, false;
    }

    /** Reports whether the session is usable at `now`; an expired session is logged out on the way. */
    method CheckAuth(now: int) returns (ok: bool)
      modifies this
      ensures Verdict(ok, State()) == Check(old(State()), now)
      ensures old(Valid()) ==> Valid()
    {
      if !Truthy(accessToken) || !TruthyExpiry(expiresIn) {
        return false;
      }
      if now > expiresIn.value {
        Logout();
        return false;
      }
      return true;
    }
  }

  // ---------------------------------------------------------------------------
  // Properties of the session state machine.

  /** `checkAuth` keeps `isAuthenticated == (accessToken != null)`; `login` and `logout` establish it
      (the ensures of `LoggedIn` and `LoggedOutConsistent`). */
  lemma ChecksKeepConsistency(s: Session, now: int)
    requires Consistent(s)
    ensures Consistent(Check(s, now).after)
  {
  }

  /** The state `logout` writes is consistent. */
  lemma LoggedOutConsistent()
    ensures Consistent(LoggedOut)
  {
  }

  /** Without a usable token or expiry, `checkAuth` answers false and changes nothing, whatever the clock says. */
  lemma MissingCredentialsChangeNothing(s: Session, now: int)
    requires !HasCredentials(s)
    ensures Check(s, now) == Verdict(false, s)
  {
  }

  /** A login with an empty token is flagged authenticated, yet `checkAuth` rejects it and does not log it out. */
  lemma EmptyTokenStaysFlagged(e: int, now: int)
    ensures LoggedIn("", e).isAuthenticated
    ensures Check(LoggedIn("", e), now) == Verdict(false, LoggedIn("", e))
  {
  }

  /** The expiry instant itself is still valid: the comparison is strict. */
  lemma ExpiryInstantStillValid(t: string, e: int)
    requires t != "" && e != 0
    ensures Check(LoggedIn(t, e), e) == Verdict(true, LoggedIn(t, e))
    ensures Check(LoggedIn(t, e), e + 1) == Verdict(false, LoggedOut)
  {
  }

  /** A check that passes at `now` passes at every earlier instant, and one that fails fails at every later instant. */
  lemma CheckMonotoneInTime(s: Session, earlier: int, later: int)
    requires earlier <= later
    ensures Check(s, later).authenticated ==> Check(s, earlier).authenticated
  {
  }

  /** Checking again at the same instant repeats the answer and changes nothing more. */
  lemma CheckIdempotent(s: Session, now: int)
    ensures Check(Check(s, now).after, now) == Verdict(Check(s, now).authenticated, Check(s, now).after)
  {
  }

  /** Once expired, the session stays rejected at every later check, even after the clock would allow it. */
  lemma ExpiredStaysOut(s: Session, now: int, later: int)
    requires HasCredentials(s) && now > s.expiresIn.value
    ensures Check(Check(s, now).after, later) == Verdict(false, LoggedOut)
  {
  }

  /** A successful check implies the store is flagged authenticated, when the store was consistent. */
  lemma PassingCheckIsAuthenticated(s: Session, now: int)
    requires Consistent(s)
    requires Check(s, now).authenticated
    ensures s.isAuthenticated && Check(s, now).after == s
  {
  }
}
