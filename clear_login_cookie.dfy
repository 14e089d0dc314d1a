/** `clearLoginCookie` (backend/auth/clear-login-cookie.ts): an already-expired, empty `login_creds` cookie. */
module ClearLoginCookie {
  import opened Cookies
  import SetLoginCookie

  const ClearedMessage := "Login cookie cleared successfully"

  datatype Response = Response(message: string, success: bool, loginCookie: Cookie)

  /** The handler takes an empty request, so it is a constant. */
  function ClearLoginCookie(): (r: Response)
    ensures r.success && r.message == ClearedMessage
    ensures r.loginCookie.value == "" && r.loginCookie.expires == 0
    ensures r.loginCookie.httpOnly && r.loginCookie.secure && r.loginCookie.sameSite == Strict
  {
    Response(ClearedMessage, true, Cookie(LoginCookieName, "", 0, true, true, Strict, "/"))
  }

  /**
   * The expired cookie addresses the same cookie the set endpoint wrote (same
   * name and path) and expires before it, for any clock reading from the
   * epoch on; only its SameSite attribute differs.
   */
  lemma ClearOverridesSet(email: string, password: string, now: int, key: string)
    requires now >= 0
    ensures var written := SetLoginCookie.SetLoginCookie(email, password, now, key).loginCookie;
      var clear := ClearLoginCookie().loginCookie;
      clear.name == written.name && clear.path == written.path &&
      clear.expires < written.expires &&
      clear.sameSite != written.sameSite
  {
  }
}
