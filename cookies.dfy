/** The Set-Cookie attributes of section 4.1 of RFC 6265 that Encore's `Cookie<Name>` carries. */
module Cookies {

  datatype SameSite = Lax | Strict

  /** `expires` is a time in milliseconds since the Unix epoch, as `new Date(ms)` holds it. */
  datatype Cookie = Cookie(
    name: string,
    value: string,
    expires: int,
    httpOnly: bool,
    secure: bool,
    sameSite: SameSite,
    path: string)

  /** The remember-me cookie written by set-login-cookie and expired by clear-login-cookie. */
  const LoginCookieName := "login_creds"
}
