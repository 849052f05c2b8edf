/**
 * Properties of the server that relate several requests: signup then login,
 * a second signup under a taken username, session expiry, and logout ending
 * the authenticated state until the next login.
 */
module AuthProperties {
  import opened Options
  import opened AuthService
  import Bcrypt
  import CredentialPolicy

  /** After a successful signup, logging in with the same username and password succeeds. */
  lemma SignupThenLogin(st: State, username: string, password: string, salt: Bcrypt.Salt, now: int)
    requires WellFormed(st)
    requires Signup(st, username, password, password, salt).0.status == 201
    ensures var st1 := Signup(st, username, password, password, salt).1;
            var (response, st2) := Login(st1, username, password, now);
            && response == Response(200, Welcome(LoginSuccessful, username))
            && st2.session == Some(Session(st.nextId, username, now + SessionMaxAge))
            && CurrentUser(st2, now) == Response(200, Identity(username))
  {
  }

  /** Once a username is registered, every later signup for it that passes validation is refused. */
  lemma SecondSignupTaken(st: State, username: string, password: string, salt: Bcrypt.Salt,
                          password2: string, confirm2: string, salt2: Bcrypt.Salt)
    requires Signup(st, username, password, password, salt).0.status == 201
    requires CredentialPolicy.ValidateSignup(username, password2, confirm2) == None
    ensures var st1 := Signup(st, username, password, password, salt).1;
            Signup(st1, username, password2, confirm2, salt2) == (Response(400, Message(UsernameTaken)), st1)
  {
  }

  /** Logging in with any other password than the one signed up with is refused with "Incorrect password". */
  lemma WrongPasswordRefused(st: State, username: string, password: string, salt: Bcrypt.Salt,
                             other: string, now: int)
    requires Signup(st, username, password, password, salt).0.status == 201
    requires other != "" && other != password
    ensures var st1 := Signup(st, username, password, password, salt).1;
            Login(st1, username, other, now) == (Response(400, Message(IncorrectPassword)), st1)
  {
    Bcrypt.VerifyOnlyOriginal(other, password, salt);
  }

  /** In a well-formed state the username a login reports is the one that was asked for. */
  lemma LoginReportsRequestedUsername(st: State, username: string, password: string, now: int)
    requires WellFormed(st)
    requires Login(st, username, password, now).0.status == 200
    ensures Login(st, username, password, now).0.body == Welcome(LoginSuccessful, username)
    ensures Login(st, username, password, now).1.session.value.username == username
  {
  }

  /**
   * A session written by a login at `loginTime` answers /api/user with the
   * username strictly before one hour has passed, and with 401 from then on.
   * A login that finds the same account's session still live writes nothing
   * new; ReloginKeepsExpiry covers that case.
   */
  lemma SessionExpiresAfterOneHour(st: State, username: string, password: string, loginTime: int, now: int)
    requires WellFormed(st)
    requires Login(st, username, password, loginTime).0.status == 200
    requires !HoldsLiveSessionOf(st, st.accounts[username], loginTime)
    ensures var st1 := Login(st, username, password, loginTime).1;
            && (now < loginTime + SessionMaxAge ==> CurrentUser(st1, now) == Response(200, Identity(username)))
            && (now >= loginTime + SessionMaxAge ==> CurrentUser(st1, now) == Response(401, Message(NotAuthenticated)))
  {
  }

  /**
   * Logging in again while the session of the first login is live changes
   * nothing: the session still ends one hour after the first login.
   */
  lemma ReloginKeepsExpiry(st: State, username: string, password: string, first: int, again: int, now: int)
    requires WellFormed(st)
    requires Login(st, username, password, first).0.status == 200
    requires !HoldsLiveSessionOf(st, st.accounts[username], first)
    requires first <= again < first + SessionMaxAge
    ensures var st1 := Login(st, username, password, first).1;
            var (response, st2) := Login(st1, username, password, again);
            && response == Response(200, Welcome(LoginSuccessful, username))
            && st2 == st1
            && st2.session.value.expiresAt == first + SessionMaxAge
            && (now >= first + SessionMaxAge ==> CurrentUser(st2, now) == Response(401, Message(NotAuthenticated)))
  {
  }

  /** Logging out twice is the same as logging out once, and both answers are 200. */
  lemma LogoutIdempotent(st: State)
    ensures Logout(Logout(st).1) == Logout(st)
  {
  }

  /** No request in `reqs` is a login. */
  predicate NoLogin(reqs: seq<Request>)
  {
    forall i :: 0 <= i < |reqs| ==> !reqs[i].LoginRequest?
  }

  /** Without a login, nothing gives a client that has no session a session. */
  lemma {:induction false} NoSessionWithoutLogin(st: State, reqs: seq<Request>)
    requires st.session == None
    requires NoLogin(reqs)
    ensures Run(st, reqs).session == None
    decreases |reqs|
  {
    if reqs != [] {
      var st1 := Step(st, reqs[0]).1;
      assert st1.session == None;
      assert NoLogin(reqs[1..]) by {
        forall i | 0 <= i < |reqs[1..]| ensures !reqs[1..][i].LoginRequest? {
          assert reqs[1..][i] == reqs[i + 1];
        }
      }
      NoSessionWithoutLogin(st1, reqs[1..]);
    }
  }

  /**
   * After a logout, /api/user answers 401 "Not authenticated" whatever
   * requests follow, as long as none of them is a login.
   */
  lemma NotAuthenticatedAfterLogout(st: State, reqs: seq<Request>, now: int)
    requires NoLogin(reqs)
    ensures CurrentUser(Run(Logout(st).1, reqs), now) == Response(401, Message(NotAuthenticated))
  {
    NoSessionWithoutLogin(Logout(st).1, reqs);
  }

  lemma StepPreservesWellFormed(st: State, req: Request)
    requires WellFormed(st)
    ensures WellFormed(Step(st, req).1)
  {
    match req
    case SignupRequest(u, p, c, salt) => SignupPreservesWellFormed(st, u, p, c, salt);
    case LoginRequest(u, p, now) => LoginPreservesWellFormed(st, u, p, now);
    case LogoutRequest => LogoutPreservesWellFormed(st);
    case UserRequest(_) =>
  }

  /** Every sequence of requests keeps the state well formed. */
  lemma {:induction false} RunPreservesWellFormed(st: State, reqs: seq<Request>)
    requires WellFormed(st)
    ensures WellFormed(Run(st, reqs))
    decreases |reqs|
  {
    if reqs != [] {
      StepPreservesWellFormed(st, reqs[0]);
      RunPreservesWellFormed(Step(st, reqs[0]).1, reqs[1..]);
    }
  }

  /** Accounts are never removed or altered: the store only grows along any run. */
  lemma {:induction false} AccountsOnlyGrow(st: State, reqs: seq<Request>)
    ensures forall u :: u in st.accounts ==> u in Run(st, reqs).accounts && Run(st, reqs).accounts[u] == st.accounts[u]
    decreases |reqs|
  {
    if reqs != [] {
      AccountsOnlyGrow(Step(st, reqs[0]).1, reqs[1..]);
    }
  }
}
