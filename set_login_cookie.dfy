/**
 * `setLoginCookie` (backend/auth/set-login-cookie.ts). Despite its comments
 * it does not encrypt: the cookie value is the base64 of the UTF-8 bytes of
 * `email ":" password`. The `CookieEncryptionKey` secret is declared and
 * never read; it is a parameter here so that this can be stated.
 */
module SetLoginCookie {
  import opened Wrappers
  import opened Cookies
  import Base64
  import Utf8

  /** 30 days in milliseconds. */
  const CookieLifetimeMs: int := 30 * 24 * 60 * 60 * 1000

  const SuccessMessage := "Login cookie set successfully"

  datatype Response = Response(success: bool, message: string, loginCookie: Cookie)

  /** The credential string, `${email}:${password}`. */
  function CredentialsString(email: string, password: string): (s: string)
    ensures |s| == |email| + 1 + |password| && s[|email|] == ':'
  {
    email + ":" + password
  }

  /** `Buffer.from(s).toString('base64')`. */
  function EncodeCredentials(email: string, password: string): (v: string)
    ensures Base64.Decode(v) == Some(Utf8.Encode(CredentialsString(email, password)))
  {
    Base64.DecodeEncode(Utf8.Encode(CredentialsString(email, password)));
    Base64.Encode(Utf8.Encode(CredentialsString(email, password)))
  }

  /**
   * The handler: `now` is `Date.now()`, `encryptionKey` the unused secret.
   * The catch branch is unreachable here, since encoding a string cannot throw.
   */
  function SetLoginCookie(email: string, password: string, now: int, encryptionKey: string): (r: Response)
    ensures r.success && r.message == SuccessMessage
    ensures r.loginCookie.name == LoginCookieName
    ensures r.loginCookie.value == EncodeCredentials(email, password)
    ensures r.loginCookie.expires == now + 2592000000
    ensures r.loginCookie.httpOnly && r.loginCookie.secure
    ensures r.loginCookie.sameSite == Lax && r.loginCookie.path == "/"
  {
    Response(
      true,
      SuccessMessage,
      Cookie(LoginCookieName, EncodeCredentials(email, password), now + CookieLifetimeMs, true, true, Lax, "/"))
  }

  /** The cookie depends on the credentials and the clock only: the encryption secret plays no part. */
  lemma SecretIsUnused(email: string, password: string, now: int, key1: string, key2: string)
    ensures SetLoginCookie(email, password, now, key1) == SetLoginCookie(email, password, now, key2)
  {
  }

  /** Anyone holding the cookie value reads the password back (nothing is encrypted). */
  lemma ValueRevealsCredentials(email: string, password: string, now: int, key: string)
    ensures var v := SetLoginCookie(email, password, now, key).loginCookie.value;
      exists b :: Base64.Decode(v) == Some(b) && Utf8.Decode(b) == email + ":" + password
  {
    var b := Utf8.Encode(CredentialsString(email, password));
    Utf8.DecodeEncode(CredentialsString(email, password));
    assert Base64.Decode(SetLoginCookie(email, password, now, key).loginCookie.value) == Some(b);
  }
}
