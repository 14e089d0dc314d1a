/**
 * The session state (frontend/contexts/AuthContext.tsx): whether the user
 * is authenticated, the tokens of the session, and the initial loading
 * flag. Each awaited backend call's outcome is a parameter of the method
 * that awaits it.
 */
module AuthSession {
  import opened Wrappers
  import opened ApiErrors
  import LoginEndpoint

  datatype AuthData = AuthData(user: string, accessToken: string, jwt: string)

  datatype Session = Session(isAuthenticated: bool, authData: Option<AuthData>, isLoading: bool)

  /** The fields of a login reply that the provider reads; a missing one is `None`. */
  datatype LoginReply = LoginReply(jwt: Option<string>, user: Option<string>, accessToken: Option<string>)

  /** The request `login` sends to `backend.auth.login`. */
  datatype LoginCall = LoginCall(email: string, password: string)

  /** The request `register` sends to `backend.auth.register`. */
  datatype RegisterCall = RegisterCall(email: string, password: string, currency: string)

  /** The request `logout` sends upstream. */
  datatype LogoutCall = LogoutCall(user: string, accessToken: string)

  const InvalidLoginResponse := PlainError("Invalid login response")

  function Truthy(v: Option<string>): bool {
    v.Some? && v.value != ""
  }

  /** The provider's starting values. */
  function InitialSession(): Session {
    Session(false, None, true)
  }

  /** The mount effect: loading ends, and no session is restored. */
  function Mounted(s: Session): Session {
    s.(isLoading := false)
  }

  /** `login` after its backend call: the new session and what it throws, if anything. */
  function LoggedIn(s: Session, reply: Result<LoginReply, Thrown>): (Session, Option<Thrown>) {
    match reply
    case Failure(e) => (s, Some(e))
    case Success(r) =>
      if Truthy(r.jwt) && Truthy(r.user) && Truthy(r.accessToken) then
        (s.(isAuthenticated := true, authData := Some(AuthData(r.user.value, r.accessToken.value, r.jwt.value))), None)
      else (s, Some(InvalidLoginResponse))
  }

  /** `register`: a failed registration is re-thrown and login is never tried; otherwise it is `login`. */
  function Registered(s: Session, registerReply: Result<string, Thrown>, loginReply: Result<LoginReply, Thrown>)
    : (Session, Option<Thrown>)
  {
    match registerReply
    case Failure(e) => (s, Some(e))
    case Success(_) => LoggedIn(s, loginReply)
  }

  /** The backend call `logout` makes: only with both a user and an access token. */
  function LogoutRequest(s: Session): (c: Option<LogoutCall>)
    ensures c.Some? <==> s.authData.Some? && s.authData.value.user != "" && s.authData.value.accessToken != ""
  {
    if s.authData.Some? && s.authData.value.user != "" && s.authData.value.accessToken != "" then
      Some(LogoutCall(s.authData.value.user, s.authData.value.accessToken))
    else None
  }

  /** The `finally` of `logout`, whatever the backend call did. */
  function LoggedOut(s: Session): Session {
    s.(isAuthenticated := false, authData := None)
  }

  /** Until mounted the provider is loading; mounting restores no session. */
  lemma MountRestoresNothing()
    ensures var s := Mounted(InitialSession()); !s.isAuthenticated && s.authData.None? && !s.isLoading
  {
  }

  /**
   * Login authenticates exactly when the reply carries all three tokens,
   * taking them from the reply; otherwise the session is unchanged and the
   * error (the backend's own one, re-thrown as it is, or "Invalid login
   * response") reaches the caller.
   */
  lemma LoggedInSpec(s: Session, reply: Result<LoginReply, Thrown>)
    ensures var (t, err) := LoggedIn(s, reply);
      (err.None? <==> reply.Success? && Truthy(reply.value.jwt) && Truthy(reply.value.user) && Truthy(reply.value.accessToken)) &&
      (err.None? ==> t.isAuthenticated && t.authData == Some(AuthData(reply.value.user.value, reply.value.accessToken.value, reply.value.jwt.value))) &&
      (err.Some? ==> t == s) &&
      (reply.Failure? ==> err == Some(reply.error)) &&
      (reply.Success? && err.Some? ==> err == Some(InvalidLoginResponse))
  {
  }

  /** A failed registration leaves the session untouched and surfaces the registration error. */
  lemma RegisterFailureSkipsLogin(s: Session, e: Thrown, l1: Result<LoginReply, Thrown>, l2: Result<LoginReply, Thrown>)
    ensures Registered(s, Failure(e), l1) == Registered(s, Failure(e), l2) == (s, Some(e))
  {
  }

  /** Logout always ends unauthenticated with no session data. */
  lemma LoggedOutSpec(s: Session)
    ensures !LoggedOut(s).isAuthenticated && LoggedOut(s).authData.None? && LoggedOut(s).isLoading == s.isLoading
  {
  }

  /** A session a login created is logged out upstream with its own user and access token. */
  lemma LoginThenLogout(s: Session, reply: Result<LoginReply, Thrown>)
    requires LoggedIn(s, reply).1.None?
    ensures LogoutRequest(LoggedIn(s, reply).0) == Some(LogoutCall(reply.value.user.value, reply.value.accessToken.value))
  {
  }

  /** What the client reads from the mock login endpoint's response: a jwt, and no user or access token. */
  function ClientView(r: Result<LoginEndpoint.LoginResponse, Thrown>): Result<LoginReply, Thrown> {
    match r
    case Success(resp) => Success(LoginReply(Some(resp.jwt), None, None))
    case Failure(e) => Failure(e)
  }

  /**
   * Against the mock login endpoint, login never authenticates: the mock
   * returns no user and no access token, so even its one good account gets
   * "Invalid login response".
   */
  lemma MockLoginNeverAuthenticates(s: Session, email: string, password: string, now: nat)
    ensures var (t, err) := LoggedIn(s, ClientView(LoginEndpoint.Login(LoginEndpoint.LoginRequest(email, password), now)));
      t == s && err.Some? &&
      (email == "test@example.com" && password == "password" ==> err == Some(InvalidLoginResponse))
  {
  }

  /** What the client reads from the corrected endpoint's response: all three tokens. */
  function IntendedView(r: Result<LoginEndpoint.SessionResponse, Thrown>): Result<LoginReply, Thrown> {
    match r
    case Success(resp) => Success(LoginReply(Some(resp.jwt), Some(resp.user), Some(resp.accessToken)))
    case Failure(e) => Failure(e)
  }

  /**
   * Against the corrected endpoint, login authenticates exactly for the mock
   * account (given a non-empty user and access token), with the minted token
   * and the account's user and access token; any other pair is refused with
   * the endpoint's own error and the session is unchanged.
   */
  lemma IntendedLoginAuthenticates(s: Session, email: string, password: string, now: nat, user: string, accessToken: string)
    ensures var (t, err) := LoggedIn(s, IntendedView(LoginEndpoint.IntendedLogin(LoginEndpoint.LoginRequest(email, password), now, user, accessToken)));
      (err.None? <==> email == "test@example.com" && password == "password" && user != "" && accessToken != "") &&
      (err.None? ==> t == s.(isAuthenticated := true, authData := Some(AuthData(user, accessToken, LoginEndpoint.MockJwt(now))))) &&
      (err.Some? ==> t == s) &&
      (!(email == "test@example.com" && password == "password") ==>
        err == Some(LoginEndpoint.Login(LoginEndpoint.LoginRequest(email, password), now).error))
  {
  }

  class AuthProvider {
    var isAuthenticated: bool
    var authData: Option<AuthData>
    var isLoading: bool

    function State(): Session
      reads this
    {
      Session(isAuthenticated, authData, isLoading)
    }

    constructor()
      ensures State() == InitialSession()
    {
      isAuthenticated := false;
      authData := None;
      isLoading := true;
    }

    method MountEffect()
      modifies this
      ensures State() == Mounted(old(State()))
    {
      isLoading := false;
    }

    /**
     * `login(email, password)`: the request it sends, and, given what
     * `backend.auth.login` answered, what it re-throws.
     */
    method Login(email: string, password: string, reply: Result<LoginReply, Thrown>)
      returns (call: LoginCall, thrown: Option<Thrown>)
      modifies this
      ensures call == LoginCall(email, password)
      ensures (State(), thrown) == LoggedIn(old(State()), reply)
    {
      call := LoginCall(email, password);
      if reply.Failure? {
        thrown := Some(reply.error);
        return;
      }
      var response := reply.value;
      if Truthy(response.jwt) && Truthy(response.user) && Truthy(response.accessToken) {
        authData := Some(AuthData(response.user.value, response.accessToken.value, response.jwt.value));
        isAuthenticated := true;
        thrown := None;
      } else {
        thrown := Some(InvalidLoginResponse);
      }
    }

    /**
     * `register(email, password, currency)`, given the registration's and then
     * the login's answers: the registration request, and the login request,
     * made with the same email and password, only once registration succeeded.
     */
    method Register(email: string, password: string, currency: string,
                    registerReply: Result<string, Thrown>, loginReply: Result<LoginReply, Thrown>)
      returns (registerCall: RegisterCall, loginCall: Option<LoginCall>, thrown: Option<Thrown>)
      modifies this
      ensures registerCall == RegisterCall(email, password, currency)
      ensures loginCall == (if registerReply.Success? then Some(LoginCall(email, password)) else None)
      ensures (State(), thrown) == Registered(old(State()), registerReply, loginReply)
    {
      registerCall := RegisterCall(email, password, currency);
      if registerReply.Failure? {
        loginCall := None;
        thrown := Some(registerReply.error);
        return;
      }
      var call;
      call, thrown := Login(email, password, loginReply);
      loginCall := Some(call);
    }

    /** `logout`: the upstream call it makes, if any; its failure is caught, and the session is cleared regardless. */
    method Logout() returns (call: Option<LogoutCall>)
      modifies this
      ensures call == LogoutRequest(old(State()))
      ensures State() == LoggedOut(old(State()))
    {
      call := LogoutRequest(State());
      authData := None;
      isAuthenticated := false;
    }
  }
}
