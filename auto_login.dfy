/**
 * `autoLogin` (backend/auth/auto-login.ts): read the `login_creds` cookie,
 * base64-decode it, split it on `:`, replay the pair against the upstream
 * `user_login` call, and classify the reply. The upstream call is the
 * function parameter `upstream`; an outcome reached without calling it is
 * one that does not depend on it.
 */
module AutoLogin {
  import opened Wrappers
  import opened Bytes
  import opened ApiErrors
  import opened Text
  import Base64
  import Utf8
  import SetLoginCookie

  datatype Credentials = Credentials(email: string, password: string)

  /** One element of the upstream `data` array; `NullEntry` is a JSON `null`. */
  datatype UpstreamEntry =
    | NullEntry
    | Entry(authenticationToken: Option<string>, user: Option<string>)

  /** `data.data`: falsy (absent, null, false, 0, ""), some other non-array value, or an array. */
  datatype UpstreamData = Missing | NotArray | Entries(items: seq<UpstreamEntry>)

  /** The reply body: not JSON, the JSON literal `null`, or an object (`success` read for truthiness). */
  datatype UpstreamBody =
    | Unparseable
    | NullJson
    | Json(success: bool, data: UpstreamData)

  /** What `fetch` gives: a rejection (network failure), or a status class and a body. */
  datatype UpstreamReply = FetchFailed | Reply(ok: bool, body: UpstreamBody)

  datatype AutoLoginResponse = AutoLoginResponse(
    jwt: string,
    message: string,
    user: Option<string>,
    accessToken: Option<string>,
    success: bool)

  const NoCredentials := ApiError(Unauthenticated, "No login credentials found")
  const BadFormat := ApiError(Unauthenticated, "Invalid credentials format")
  const Rejected := ApiError(Unauthenticated, "Auto-login failed - credentials may be invalid")
  const BadResponse := ApiError(Internal, "Invalid response format from auto-login service")
  const ServiceFailed := ApiError(Unauthenticated, "Auto-login service failed")
  const SuccessMessage := "Auto-login successful"

  /**
   * `Buffer.from(value, 'base64').toString('utf-8')`. Canonical base64 is
   * decoded exactly; for any other text Node's lenient decoder yields some
   * bytes, supplied here as `lenient`.
   */
  function DecodeCookieText(value: string, lenient: seq<Byte>): string {
    match Base64.Decode(value)
    case Some(b) => Utf8.Decode(b)
    case None => Utf8.Decode(lenient)
  }

  /**
   * `const [email, password] = s.split(':')`: the first two pieces, where
   * a missing second piece (`undefined`) is as falsy as an empty one.
   */
  function FirstTwoPieces(s: string): (r: (string, string))
    ensures ':' !in r.0 && ':' !in r.1
  {
    var pieces := Split(s, ':');
    (pieces[0], if |pieces| > 1 then pieces[1] else "")
  }

  /** Lines 24-34: the guards before the upstream call. */
  function ReadCredentials(cookie: Option<string>, lenient: seq<Byte>): Result<Credentials, Thrown> {
    if cookie.None? || cookie.value == "" then Failure(NoCredentials)
    else
      var (email, password) := FirstTwoPieces(DecodeCookieText(cookie.value, lenient));
      if email == "" || password == "" then Failure(BadFormat)
      else Success(Credentials(email, password))
  }

  /** Lines 61-92: the checks on the reply, with a JSON `null` read as a `TypeError` (no code). */
  function ClassifyReply(reply: UpstreamReply): Result<AutoLoginResponse, Thrown> {
    match reply
    case FetchFailed => Failure(PlainError("fetch failed"))
    case Reply(ok, body) =>
      if !ok then Failure(Rejected)
      else match body
        case Unparseable => Failure(BadResponse)
        case NullJson => Failure(PlainError("Cannot read properties of null (reading 'success')"))
        case Json(success, data) =>
          if !success || !data.Entries? || |data.items| == 0 then Failure(Rejected)
          else match data.items[0]
            case NullEntry => Failure(PlainError("Cannot read properties of null (reading 'authentication_token')"))
            case Entry(token, user) =>
              if token.None? || token.value == "" then Failure(Rejected)
              else Success(AutoLoginResponse(token.value, SuccessMessage, user, Some(token.value), true))
  }

  /** Lines 102-106: an error with a code is re-thrown as it is; any other becomes "Auto-login service failed". */
  function Remap(e: Thrown): (r: ApiErrors.Thrown)
    ensures r.ApiError?
    ensures e.ApiError? ==> r == e
    ensures !e.ApiError? ==> r == ServiceFailed
  {
    if e.ApiError? then e else ServiceFailed
  }

  /** The endpoint. */
  function AutoLogin(cookie: Option<string>, lenient: seq<Byte>, upstream: Credentials -> UpstreamReply)
    : Result<AutoLoginResponse, Thrown>
  {
    match ReadCredentials(cookie, lenient)
    case Failure(e) => Failure(Remap(e))
    case Success(creds) =>
      match ClassifyReply(upstream(creds))
      case Success(r) => Success(r)
      case Failure(e) => Failure(Remap(e))
  }

  /** The password as it comes back out of the cookie: cut at its first colon. */
  function BeforeColon(s: string): (r: string)
    ensures r <= s && ':' !in r
    ensures ':' !in s ==> r == s
  {
    match IndexOf(s, ':')
    case None => s
    case Some(i) => s[..i]
  }

  /**
   * A missing or empty cookie ends in "No login credentials found" without
   * calling upstream: the outcome is the same whatever upstream would answer.
   */
  lemma NoCookieNoCall(cookie: Option<string>, lenient: seq<Byte>, up1: Credentials -> UpstreamReply, up2: Credentials -> UpstreamReply)
    requires cookie.None? || cookie.value == ""
    ensures AutoLogin(cookie, lenient, up1) == Failure(NoCredentials)
    ensures AutoLogin(cookie, lenient, up1) == AutoLogin(cookie, lenient, up2)
  {
  }

  /** Whenever the decoded pair has an empty half, the outcome is "Invalid credentials format" and upstream is not called. */
  lemma EmptyHalfNoCall(value: string, lenient: seq<Byte>, up1: Credentials -> UpstreamReply, up2: Credentials -> UpstreamReply)
    requires value != ""
    requires var p := FirstTwoPieces(DecodeCookieText(value, lenient)); p.0 == "" || p.1 == ""
    ensures AutoLogin(Some(value), lenient, up1) == Failure(BadFormat)
    ensures AutoLogin(Some(value), lenient, up1) == AutoLogin(Some(value), lenient, up2)
  {
  }

  /** The cookie set-login-cookie writes decodes back to the credential string. */
  lemma CookieText(email: string, password: string, now: int, key: string, lenient: seq<Byte>)
    ensures var v := SetLoginCookie.SetLoginCookie(email, password, now, key).loginCookie.value;
      v != "" && DecodeCookieText(v, lenient) == SetLoginCookie.CredentialsString(email, password)
  {
    var s := SetLoginCookie.CredentialsString(email, password);
    Utf8.DecodeEncode(s);
    assert |Utf8.Encode(s)| > 0 by { assert s != []; }
  }

  /** Splitting `email ":" password` on `:` gives the email and the password up to its first colon. */
  lemma PairPieces(email: string, password: string)
    requires ':' !in email
    ensures FirstTwoPieces(email + ":" + password) == (email, BeforeColon(password))
  {
    SplitHead(email, ':', password);
    assert email + ":" + password == email + [':'] + password;
    match IndexOf(password, ':')
    case None =>
      SplitNoSeparator(password, ':');
    case Some(i) =>
      assert password == password[..i] + [':'] + password[i + 1..];
      SplitHead(password[..i], ':', password[i + 1..]);
  }

  /**
   * Round trip with set-login-cookie: when the email is non-empty and
   * colon-free and the password does not start with a colon, the cookie that
   * endpoint writes is read back as the email and the password up to its
   * first colon.
   */
  lemma CookieRoundTrip(email: string, password: string, now: int, key: string, lenient: seq<Byte>)
    requires email != "" && ':' !in email
    requires password != "" && password[0] != ':'
    ensures var v := SetLoginCookie.SetLoginCookie(email, password, now, key).loginCookie.value;
      ReadCredentials(Some(v), lenient) == Success(Credentials(email, BeforeColon(password)))
  {
    CookieText(email, password, now, key, lenient);
    PairPieces(email, password);
  }

  /** The exact round trip: with no colon in either half, the pair comes back unchanged. */
  lemma CookieRoundTripExact(email: string, password: string, now: int, key: string, lenient: seq<Byte>)
    requires email != "" && ':' !in email
    requires password != "" && ':' !in password
    ensures var v := SetLoginCookie.SetLoginCookie(email, password, now, key).loginCookie.value;
      ReadCredentials(Some(v), lenient) == Success(Credentials(email, password))
  {
    CookieRoundTrip(email, password, now, key, lenient);
  }

  /** With two colons, the first two pieces are what lies before the second colon. */
  lemma TriplePieces(a: string, b: string, rest: string)
    requires ':' !in a && ':' !in b
    ensures FirstTwoPieces(a + ":" + b + ":" + rest) == (a, b)
  {
    assert a + ":" + b + ":" + rest == a + [':'] + (b + [':'] + rest);
    SplitHead(a, ':', b + [':'] + rest);
    SplitHead(b, ':', rest);
  }

  /**
   * A colon in the email moves the split point: what comes back is the part of
   * the email before its colon and the part after it, not the password.
   */
  lemma ColonInEmailCorruptsSplit(a: string, b: string, password: string, now: int, key: string, lenient: seq<Byte>)
    requires a != "" && b != "" && ':' !in a && ':' !in b
    ensures var v := SetLoginCookie.SetLoginCookie(a + ":" + b, password, now, key).loginCookie.value;
      ReadCredentials(Some(v), lenient) == Success(Credentials(a, b))
  {
    CookieText(a + ":" + b, password, now, key, lenient);
    TriplePieces(a, b, password);
  }

  /**
   * Every failure of the endpoint is unauthenticated, except the unparseable
   * OK reply, which is internal: it fails with "Invalid response format from
   * auto-login service", re-thrown as it is.
   */
  lemma FailuresAreCoded(cookie: Option<string>, lenient: seq<Byte>, upstream: Credentials -> UpstreamReply)
    ensures AutoLogin(cookie, lenient, upstream).Failure? ==>
      var e := AutoLogin(cookie, lenient, upstream).error;
      e.ApiError? && (e.code == Unauthenticated || e.code == Internal)
    ensures AutoLogin(cookie, lenient, upstream).Failure? && AutoLogin(cookie, lenient, upstream).error.code == Internal ==>
      ReadCredentials(cookie, lenient).Success? &&
      upstream(ReadCredentials(cookie, lenient).value) == Reply(true, Unparseable)
    ensures (ReadCredentials(cookie, lenient).Success? &&
      upstream(ReadCredentials(cookie, lenient).value) == Reply(true, Unparseable)) ==>
      AutoLogin(cookie, lenient, upstream) == Failure(BadResponse)
  {
  }

  /**
   * The error of each failing check on the status and the body (lines 61-72):
   * a non-OK status is "credentials may be invalid", an unparseable body is
   * the internal format error, and a rejected fetch and the `TypeError` of a
   * JSON `null` body carry no code.
   */
  lemma ClassifyFailures(reply: UpstreamReply)
    ensures reply.FetchFailed? ==> ClassifyReply(reply).Failure? && !ClassifyReply(reply).error.ApiError?
    ensures reply.Reply? && !reply.ok ==> ClassifyReply(reply) == Failure(Rejected)
    ensures reply == Reply(true, Unparseable) ==> ClassifyReply(reply) == Failure(BadResponse)
    ensures reply == Reply(true, NullJson) ==> ClassifyReply(reply).Failure? && !ClassifyReply(reply).error.ApiError?
  {
  }

  /**
   * The error of each failing check on a parsed OK body (lines 75-84): a
   * falsy `success`, a missing, non-array or empty `data`, and a missing or
   * empty token are "credentials may be invalid"; a `null` first entry is a
   * `TypeError`, with no code.
   */
  lemma ClassifyDataFailures(reply: UpstreamReply)
    ensures (reply.Reply? && reply.ok && reply.body.Json? &&
      (!reply.body.success || !reply.body.data.Entries? || |reply.body.data.items| == 0)) ==>
      ClassifyReply(reply) == Failure(Rejected)
    ensures (reply.Reply? && reply.ok && reply.body.Json? && reply.body.success &&
      reply.body.data.Entries? && |reply.body.data.items| > 0 && reply.body.data.items[0].NullEntry?) ==>
      ClassifyReply(reply).Failure? && !ClassifyReply(reply).error.ApiError?
    ensures (reply.Reply? && reply.ok && reply.body.Json? && reply.body.success &&
      reply.body.data.Entries? && |reply.body.data.items| > 0 && reply.body.data.items[0].Entry? &&
      (reply.body.data.items[0].authenticationToken.None? || reply.body.data.items[0].authenticationToken.value == "")) ==>
      ClassifyReply(reply) == Failure(Rejected)
  {
  }

  /**
   * The error the endpoint answers with, for every way it fails: the cookie
   * guards' own errors, "credentials may be invalid" for a rejecting reply,
   * the internal format error for an unparseable body, and "Auto-login
   * service failed" for every error without a code.
   */
  lemma FailureErrors(cookie: Option<string>, lenient: seq<Byte>, upstream: Credentials -> UpstreamReply)
    ensures ReadCredentials(cookie, lenient).Failure? ==>
      AutoLogin(cookie, lenient, upstream) == Failure(ReadCredentials(cookie, lenient).error) &&
      (ReadCredentials(cookie, lenient).error == NoCredentials || ReadCredentials(cookie, lenient).error == BadFormat)
    ensures ReadCredentials(cookie, lenient).Success? ==>
      var reply := upstream(ReadCredentials(cookie, lenient).value);
      (ClassifyReply(reply) == Failure(Rejected) ==> AutoLogin(cookie, lenient, upstream) == Failure(Rejected)) &&
      (ClassifyReply(reply) == Failure(BadResponse) ==> AutoLogin(cookie, lenient, upstream) == Failure(BadResponse)) &&
      (ClassifyReply(reply).Failure? && !ClassifyReply(reply).error.ApiError? ==>
        AutoLogin(cookie, lenient, upstream) == Failure(ServiceFailed))
  {
  }

  /**
   * Success exactly when the credentials were read and upstream said OK with a
   * truthy `success`, a non-empty `data` array whose first element has an
   * `authentication_token`; that token is then both the jwt and the access
   * token, and the user is the element's `user`.
   */
  lemma SuccessCharacterized(cookie: Option<string>, lenient: seq<Byte>, upstream: Credentials -> UpstreamReply)
    ensures AutoLogin(cookie, lenient, upstream).Success? <==>
      ReadCredentials(cookie, lenient).Success? &&
      var reply := upstream(ReadCredentials(cookie, lenient).value);
      reply.Reply? && reply.ok && reply.body.Json? && reply.body.success &&
      reply.body.data.Entries? && |reply.body.data.items| > 0 &&
      reply.body.data.items[0].Entry? &&
      reply.body.data.items[0].authenticationToken.Some? && reply.body.data.items[0].authenticationToken.value != ""
    ensures AutoLogin(cookie, lenient, upstream).Success? ==>
      var r := AutoLogin(cookie, lenient, upstream).value;
      var entry := upstream(ReadCredentials(cookie, lenient).value).body.data.items[0];
      r.success && r.message == SuccessMessage &&
      r.jwt == entry.authenticationToken.value && r.accessToken == Some(r.jwt) && r.user == entry.user
  {
    if ReadCredentials(cookie, lenient).Success? {
      ClassifySuccess(upstream(ReadCredentials(cookie, lenient).value));
    }
  }

  /** The upstream replies that sign in, and the response built from them. */
  lemma ClassifySuccess(reply: UpstreamReply)
    ensures ClassifyReply(reply).Success? <==>
      reply.Reply? && reply.ok && reply.body.Json? && reply.body.success &&
      reply.body.data.Entries? && |reply.body.data.items| > 0 &&
      reply.body.data.items[0].Entry? &&
      reply.body.data.items[0].authenticationToken.Some? && reply.body.data.items[0].authenticationToken.value != ""
    ensures ClassifyReply(reply).Success? ==>
      var r := ClassifyReply(reply).value;
      var entry := reply.body.data.items[0];
      r.success && r.message == SuccessMessage &&
      r.jwt == entry.authenticationToken.value && r.accessToken == Some(r.jwt) && r.user == entry.user
  {
  }

  /** A rejected `fetch` (no code) becomes "Auto-login service failed". */
  lemma FetchFailureRemapped(cookie: Option<string>, lenient: seq<Byte>, upstream: Credentials -> UpstreamReply)
    requires ReadCredentials(cookie, lenient).Success?
    requires upstream(ReadCredentials(cookie, lenient).value) == FetchFailed
    ensures AutoLogin(cookie, lenient, upstream) == Failure(ServiceFailed)
  {
  }
}
