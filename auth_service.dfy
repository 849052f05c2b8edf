/**
 * The server's four handlers as a state machine over the account store and
 * the session of the calling client.  Each handler is a total function from
 * request and state to response and new state; the class `AuthServer` below
 * holds the same state in fields and its methods are proved to perform these
 * functions.
 *
 * Time is a parameter `now` in milliseconds.  The session cookie lives one
 * hour from the login that wrote it; once that has passed the session is
 * treated as absent.
 */
module AuthService {
  import opened Options
  import Bcrypt
  import CredentialPolicy

  /** cookie maxAge: one hour, in milliseconds */
  const SessionMaxAge: int := 1000 * 60 * 60

  /**
   * The `message` strings of the JSON replies.  Replies carry the notice;
   * `Text` gives the string that is sent.
   */
  datatype Notice =
    | Rejected(reason: CredentialPolicy.Rejection)
    | UsernameTaken
    | UserCreated
    | LoginFieldsMissing
    | UnknownUsername
    | IncorrectPassword
    | LoginSuccessful
    | LogoutSuccessful
    | NotAuthenticated
  {
    function Text(): string
    {
      match this
      case Rejected(reason) => CredentialPolicy.Message(reason)
      case UsernameTaken => "Username already exists"
      case UserCreated => "User created successfully"
      case LoginFieldsMissing => "Both fields are required"
      case UnknownUsername => "Username does not exist"
      case IncorrectPassword => "Incorrect password"
      case LoginSuccessful => "Login successful"
      case LogoutSuccessful => "Logout successful"
      case NotAuthenticated => "Not authenticated"
    }
  }

  /** A stored user: its generated id, its username and the bcrypt secret of its password. */
  datatype Account = Account(id: nat, username: string, passwordHash: string)

  /** What login writes into the session, and when the session cookie expires. */
  datatype Session = Session(userId: nat, username: string, expiresAt: int)

  /**
   * The account store, keyed by username; the next id the store hands out;
   * the calling client's session.
   */
  datatype State = State(accounts: map<string, Account>, nextId: nat, session: Option<Session>)

  /** The JSON bodies the handlers send. */
  datatype Body =
    | Message(message: Notice)
    | Welcome(message: Notice, username: string)
    | Identity(username: string)

  datatype Response = Response(status: nat, body: Body)

  const Initial: State := State(map[], 0, None)

  /**
   * What the handlers keep true: every account is filed under its own
   * username, which is at least 8 characters long, and holds a bcrypt secret;
   * ids are distinct and below `nextId`; a session names an existing account
   * by its id and username.
   */
  ghost predicate WellFormed(st: State)
  {
    StoreWellFormed(st.accounts, st.nextId) && SessionWellFormed(st.accounts, st.session)
  }

  ghost predicate StoreWellFormed(accounts: map<string, Account>, nextId: nat)
  {
    && (forall u :: u in accounts ==>
          && accounts[u].username == u
          && |u| >= CredentialPolicy.MinUsernameLength
          && accounts[u].id < nextId
          && Bcrypt.IsSecret(accounts[u].passwordHash))
    && (forall u, v :: u in accounts && v in accounts && u != v ==> accounts[u].id != accounts[v].id)
  }

  ghost predicate SessionWellFormed(accounts: map<string, Account>, session: Option<Session>)
  {
    session.Some? ==>
      && session.value.username in accounts
      && accounts[session.value.username].id == session.value.userId
  }

  /** The client holds a session that has not yet expired at time `now`. */
  predicate Authenticated(st: State, now: int)
  {
    st.session.Some? && now < st.session.value.expiresAt
  }

  /** POST /api/signup */
  function Signup(st: State, username: string, password: string, confirmPassword: string, salt: Bcrypt.Salt)
    : (out: (Response, State))
    ensures out.1.session == st.session
    ensures out.0.status == 201 <==>
              CredentialPolicy.AcceptableSignup(username, password, confirmPassword) && username !in st.accounts
    ensures out.0.status == 201 ==>
              && out.1.accounts == st.accounts[username := Account(st.nextId, username, Bcrypt.Hash(password, salt))]
              && out.1.nextId == st.nextId + 1
              && out.1.accounts[username].passwordHash != password
              && |out.1.accounts| == |st.accounts| + 1
              && out.0.body == Message(UserCreated)
    ensures out.0.status != 201 ==> out.0.status == 400 && out.1 == st
    ensures CredentialPolicy.ValidateSignup(username, password, confirmPassword).Some? ==>
              out.0.body == Message(Rejected(CredentialPolicy.ValidateSignup(username, password, confirmPassword).value))
    ensures CredentialPolicy.ValidateSignup(username, password, confirmPassword).None? && username in st.accounts ==>
              out.0.body == Message(UsernameTaken)
  {
    match CredentialPolicy.ValidateSignup(username, password, confirmPassword)
    case Some(rejection) =>
      (Response(400, Message(Rejected(rejection))), st)
    case None =>
      if username in st.accounts then
        (Response(400, Message(UsernameTaken)), st)
      else
        var account := Account(st.nextId, username, Bcrypt.Hash(password, salt));
        (Response(201, Message(UserCreated)),
         st.(accounts := st.accounts[username := account], nextId := st.nextId + 1))
  }

  /**
   * The client's live session already holds the id and username a login of
   * `account` writes.  Writing the same values again leaves the session
   * unmodified, and with `rolling` left off the cookie is then not sent
   * again: it keeps the expiry of the login that first wrote it.
   */
  predicate HoldsLiveSessionOf(st: State, account: Account, now: int)
  {
    && Authenticated(st, now)
    && st.session.value.userId == account.id
    && st.session.value.username == account.username
  }

  /** POST /api/login */
  function Login(st: State, username: string, password: string, now: int): (out: (Response, State))
    ensures out.0.status == 200 <==>
              && username != "" && password != ""
              && username in st.accounts
              && Bcrypt.Verify(password, st.accounts[username].passwordHash)
    ensures out.0.status == 200 ==>
              var account := st.accounts[username];
              && out.0.body == Welcome(LoginSuccessful, account.username)
              && (HoldsLiveSessionOf(st, account, now) ==> out.1 == st)
              && (!HoldsLiveSessionOf(st, account, now) ==>
                    out.1 == st.(session := Some(Session(account.id, account.username, now + SessionMaxAge))))
    ensures out.0.status != 200 ==> out.0.status == 400 && out.1 == st
    ensures username == "" || password == "" ==> out.0.body == Message(LoginFieldsMissing)
    ensures username != "" && password != "" && username !in st.accounts ==> out.0.body == Message(UnknownUsername)
    ensures username != "" && password != "" && username in st.accounts
            && !Bcrypt.Verify(password, st.accounts[username].passwordHash) ==>
              out.0.body == Message(IncorrectPassword)
  {
    if username == "" || password == "" then
      (Response(400, Message(LoginFieldsMissing)), st)
    else if username !in st.accounts then
      (Response(400, Message(UnknownUsername)), st)
    else
      var account := st.accounts[username];
      if !Bcrypt.Verify(password, account.passwordHash) then
        (Response(400, Message(IncorrectPassword)), st)
      else if HoldsLiveSessionOf(st, account, now) then
        (Response(200, Welcome(LoginSuccessful, account.username)), st)
      else
        (Response(200, Welcome(LoginSuccessful, account.username)),
         st.(session := Some(Session(account.id, account.username, now + SessionMaxAge))))
  }

  /** GET /api/logout: the session is destroyed, whatever it was. */
  function Logout(st: State): (out: (Response, State))
    ensures out.0 == Response(200, Message(LogoutSuccessful))
    ensures out.1.session == None
    ensures out.1.accounts == st.accounts && out.1.nextId == st.nextId
  {
    (Response(200, Message(LogoutSuccessful)), st.(session := None))
  }

  /** GET /api/user: the session's username, if the client is logged in; the state is not changed. */
  function CurrentUser(st: State, now: int): (r: Response)
    ensures r.status == 200 <==> Authenticated(st, now)
    ensures r.status == 200 ==> r.body == Identity(st.session.value.username)
    ensures r.status != 200 ==> r == Response(401, Message(NotAuthenticated))
  {
    if Authenticated(st, now) then
      Response(200, Identity(st.session.value.username))
    else
      Response(401, Message(NotAuthenticated))
  }

  /** One request of the client, with the salt bcrypt would draw or the clock reading it is served at. */
  datatype Request =
    | SignupRequest(username: string, password: string, confirmPassword: string, salt: Bcrypt.Salt)
    | LoginRequest(username: string, password: string, now: int)
    | LogoutRequest
    | UserRequest(now: int)

  function Step(st: State, req: Request): (Response, State)
  {
    match req
    case SignupRequest(u, p, c, salt) => Signup(st, u, p, c, salt)
    case LoginRequest(u, p, now) => Login(st, u, p, now)
    case LogoutRequest => Logout(st)
    case UserRequest(now) => (CurrentUser(st, now), st)
  }

  /** The state after serving `reqs` one after another. */
  function Run(st: State, reqs: seq<Request>): State
    decreases |reqs|
  {
    if reqs == [] then st else Run(Step(st, reqs[0]).1, reqs[1..])
  }

  /** Adding an account with a fresh id under an unused, long enough username keeps the state well formed. */
  lemma InsertPreservesWellFormed(st: State, username: string, secret: string)
    requires WellFormed(st)
    requires username !in st.accounts && |username| >= CredentialPolicy.MinUsernameLength
    requires Bcrypt.IsSecret(secret)
    ensures WellFormed(st.(accounts := st.accounts[username := Account(st.nextId, username, secret)],
                           nextId := st.nextId + 1))
  {
  }

  lemma SignupPreservesWellFormed(st: State, username: string, password: string, confirmPassword: string, salt: Bcrypt.Salt)
    requires WellFormed(st)
    ensures WellFormed(Signup(st, username, password, confirmPassword, salt).1)
  {
    var out := Signup(st, username, password, confirmPassword, salt);
    if out.0.status == 201 {
      var secret := Bcrypt.Hash(password, salt);
      assert out.1 == st.(accounts := st.accounts[username := Account(st.nextId, username, secret)],
                          nextId := st.nextId + 1);
      InsertPreservesWellFormed(st, username, secret);
    }
  }

  lemma LoginPreservesWellFormed(st: State, username: string, password: string, now: int)
    requires WellFormed(st)
    ensures WellFormed(Login(st, username, password, now).1)
  {
  }

  lemma LogoutPreservesWellFormed(st: State)
    requires WellFormed(st)
    ensures WellFormed(Logout(st).1)
  {
  }

  /** The server process: the account store and the client's session, updated in place. */
  class AuthServer {
    var accounts: map<string, Account>
    var nextId: nat
    var session: Option<Session>

    function Snapshot(): State
      reads this
    {
      State(accounts, nextId, session)
    }

    ghost predicate Valid()
      reads this
    {
      WellFormed(Snapshot())
    }

    constructor ()
      ensures Valid() && Snapshot() == Initial
    {
      accounts := map[];
      nextId := 0;
      session := None;
    }

    method PostSignup(username: string, password: string, confirmPassword: string, salt: Bcrypt.Salt)
      returns (response: Response)
      requires Valid()
      modifies this
      ensures Valid()
      ensures (response, Snapshot()) == Signup(old(Snapshot()), username, password, confirmPassword, salt)
    {
      ghost var before := Snapshot();
      var rejection := CredentialPolicy.ValidateSignup(username, password, confirmPassword);
      if rejection.Some? {
        response := Response(400, Message(Rejected(rejection.value)));
        assert Signup(before, username, password, confirmPassword, salt) == (response, before);
        return;
      }
      if username in accounts {
        response := Response(400, Message(UsernameTaken));
        assert Signup(before, username, password, confirmPassword, salt) == (response, before);
        return;
      }
      var hashed := Bcrypt.Hash(password, salt);
      ghost var after := before.(accounts := before.accounts[username := Account(before.nextId, username, hashed)],
                                 nextId := before.nextId + 1);
      InsertPreservesWellFormed(before, username, hashed);
      accounts := accounts[username := Account(nextId, username, hashed)];
      nextId := nextId + 1;
      response := Response(201, Message(UserCreated));
      assert Snapshot() == after;
      assert rejection == None && username !in before.accounts;
      ghost var out := Signup(before, username, password, confirmPassword, salt);
      assert out.0 == response;
      assert out.1 == after;
    }

    method PostLogin(username: string, password: string, now: int) returns (response: Response)
      requires Valid()
      modifies this
      ensures Valid()
      ensures (response, Snapshot()) == Login(old(Snapshot()), username, password, now)
    {
      if username == "" || password == "" {
        return Response(400, Message(LoginFieldsMissing));
      }
      if username !in accounts {
        return Response(400, Message(UnknownUsername));
      }
      var user := accounts[username];
      var isMatch := Bcrypt.Verify(password, user.passwordHash);
      if !isMatch {
        return Response(400, Message(IncorrectPassword));
      }
      var stillLive := session.Some? && now < session.value.expiresAt
                       && session.value.userId == user.id && session.value.username == user.username;
      if !stillLive {
        session := Some(Session(user.id, user.username, now + SessionMaxAge));
      }
      response := Response(200, Welcome(LoginSuccessful, user.username));
    }

    method GetLogout() returns (response: Response)
      requires Valid()
      modifies this
      ensures Valid()
      ensures (response, Snapshot()) == Logout(old(Snapshot()))
    {
      session := None;
      response := Response(200, Message(LogoutSuccessful));
    }

    method GetUser(now: int) returns (response: Response)
      requires Valid()
      ensures response == CurrentUser(Snapshot(), now)
    {
      if session.Some? && now < session.value.expiresAt {
        response := Response(200, Identity(session.value.username));
      } else {
        response := Response(401, Message(NotAuthenticated));
      }
    }
  }
}
