/**
 * The mock `register` endpoint (backend/auth/register.ts): every new email
 * is accepted, one hard-coded email is taken.
 */
module RegisterEndpoint {
  import opened Wrappers
  import opened ApiErrors
  import LoginEndpoint

  datatype RegisterRequest = RegisterRequest(email: string, password: string, countryId: string, currency: string)

  datatype RegisterResponse = RegisterResponse(jwt: string, message: string)

  const MissingFields := ApiError(InvalidArgument, "Email and password are required")
  const Taken := ApiError(AlreadyExists, "User with this email already exists")
  const RegisteredMessage := "User registered successfully"

  function Register(req: RegisterRequest, now: nat): Result<RegisterResponse, Thrown> {
    if req.email == "" || req.password == "" then Failure(MissingFields)
    else if req.email == "existing@example.com" then Failure(Taken)
    else Success(RegisterResponse(LoginEndpoint.MockJwt(now), RegisteredMessage))
  }

  /**
   * Registration succeeds exactly for a non-empty password and a non-empty
   * email other than the taken one, with a fresh mock token; the country and
   * currency play no part.
   */
  lemma RegisterOutcome(req: RegisterRequest, now: nat)
    ensures Register(req, now).Success? <==>
      req.email != "" && req.password != "" && req.email != "existing@example.com"
    ensures Register(req, now).Success? ==>
      Register(req, now).value == RegisterResponse(LoginEndpoint.MockJwt(now), RegisteredMessage)
    ensures req.email == "existing@example.com" && req.password != "" <==> Register(req, now) == Failure(Taken)
    ensures (req.email == "" || req.password == "") <==> Register(req, now) == Failure(MissingFields)
  {
  }

  /** Country and currency are ignored. */
  lemma CountryAndCurrencyIgnored(req: RegisterRequest, countryId: string, currency: string, now: nat)
    ensures Register(req, now) == Register(req.(countryId := countryId, currency := currency), now)
  {
  }
}
