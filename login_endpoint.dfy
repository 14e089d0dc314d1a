/**
 * The mock `login` endpoint (backend/auth/login.ts): one hard-coded account,
 * and a token made of a fixed prefix and the clock.
 */
module LoginEndpoint {
  import opened Wrappers
  import opened ApiErrors
  import opened Text

  datatype LoginRequest = LoginRequest(email: string, password: string)

  /** The response type carries only the token and a message (no user, no access token). */
  datatype LoginResponse = LoginResponse(jwt: string, message: string)

  const TokenPrefix := "mock-jwt-token-"
  const MissingFields := ApiError(InvalidArgument, "Email and password are required")
  const WrongCredentials := ApiError(Unauthenticated, "Invalid email or password")

  /** `mock-jwt-token-${Date.now()}`, with `now` the milliseconds since the epoch. */
  function MockJwt(now: nat): (jwt: string)
    ensures StartsWith(jwt, TokenPrefix) && |jwt| > |TokenPrefix|
    ensures forall i :: |TokenPrefix| <= i < |jwt| ==> '0' <= jwt[i] <= '9'
    ensures DecimalValue(jwt[|TokenPrefix|..]) == now
  {
    DecimalRoundTrip(now);
    TokenPrefix + NatToDecimal(now)
  }

  /** Tokens minted at different instants differ. */
  lemma MockJwtInjective(t1: nat, t2: nat)
    requires t1 != t2
    ensures MockJwt(t1) != MockJwt(t2)
  {
  }

  function Login(req: LoginRequest, now: nat): Result<LoginResponse, Thrown> {
    if req.email == "" || req.password == "" then Failure(MissingFields)
    else if req.email == "test@example.com" && req.password == "password" then
      Success(LoginResponse(MockJwt(now), "Login successful"))
    else Failure(WrongCredentials)
  }

  /**
   * The reply the frontend's session provider reads (frontend/contexts/AuthContext.tsx:42):
   * the token together with the account's user and access token.
   */
  datatype SessionResponse = SessionResponse(jwt: string, user: string, accessToken: string, message: string)

  /**
   * The corrected mock: the same decision as `Login`, with the account's
   * user and access token (supplied by whatever stands behind the mock)
   * added to a successful reply.
   */
  function IntendedLogin(req: LoginRequest, now: nat, user: string, accessToken: string): Result<SessionResponse, Thrown> {
    match Login(req, now)
    case Success(resp) => Success(SessionResponse(resp.jwt, user, accessToken, resp.message))
    case Failure(e) => Failure(e)
  }

  /**
   * Exactly the one mock account logs in; a missing field is an invalid
   * argument, any other pair is unauthenticated.
   */
  lemma LoginOutcome(req: LoginRequest, now: nat)
    ensures Login(req, now).Success? <==> req == LoginRequest("test@example.com", "password")
    ensures Login(req, now).Success? ==> Login(req, now).value == LoginResponse(MockJwt(now), "Login successful")
    ensures (req.email == "" || req.password == "") <==> Login(req, now) == Failure(MissingFields)
    ensures Login(req, now).Failure? && req.email != "" && req.password != "" ==>
      Login(req, now).error == WrongCredentials
  {
  }
}
