/** `POST /api/ops/auth`: the ops login. A correct password is answered with the session cookie. */
module OpsAuth {
  import opened Common
  import opened Json
  import OpsProxy

  const SessionCookie := "ops_session"
  const SevenDays := 60 * 60 * 24 * 7

  datatype Cookie = Cookie(name: string, value: string, httpOnly: bool, secure: bool, sameSite: string, path: string, maxAge: nat)

  /** The login reply, or `Unhandled` where reading the body throws. */
  datatype Reply = Reply(status: int, body: Value, cookie: Option<Cookie>) | Unhandled

  /**
   * `POST`: the body is destructured before anything else, so a body that is not JSON, or is
   * `null`, throws; then an unset password gives 500, a different password 401, and the right
   * one 200 with the cookie.
   */
  function Login(body: Result<Value, string>, secret: Option<string>, production: bool): (r: Reply)
    ensures r.Unhandled? <==> body.Err? || body.value == Null
    ensures r.Reply? && (secret.None? || secret.value == "") ==>
      r == Reply(500, ErrorObject("OPS_PASSWORD not configured"), None)
    ensures r.Reply? && secret.Some? && secret.value != "" && Get(body.value, "password") != Some(Str(secret.value)) ==>
      r == Reply(401, ErrorObject("Invalid password"), None)
    ensures r.Reply? && r.cookie.Some? <==> r.Reply? && r.status == 200
    ensures r.Reply? && r.cookie.Some? ==>
      secret.Some? && secret.value != "" && Get(body.value, "password") == Some(Str(secret.value)) &&
      r.cookie.value == Cookie(SessionCookie, secret.value, true, production, "lax", "/", SevenDays)
  {
    if body.Err? || body.value == Null then Unhandled
    else if secret.None? || secret.value == "" then Reply(500, ErrorObject("OPS_PASSWORD not configured"), None)
    else if Get(body.value, "password") != Some(Str(secret.value)) then Reply(401, ErrorObject("Invalid password"), None)
    else Reply(200, Obj(map["ok" := Bool(true)]), Some(Cookie(SessionCookie, secret.value, true, production, "lax", "/", SevenDays)))
  }

  /** A browser's `ops_session` cookie: the state the login changes and the proxy reads. */
  datatype Browser = Browser(session: Option<string>)

  /** The browser after a login reply: a cookie in the reply replaces the stored one. */
  function AfterLogin(b: Browser, r: Reply): (b': Browser)
    ensures r.Reply? && r.cookie.Some? ==> b'.session == Some(r.cookie.value.value)
    ensures !(r.Reply? && r.cookie.Some?) ==> b' == b
  {
    if r.Reply? && r.cookie.Some? then Browser(Some(r.cookie.value.value)) else b
  }

  /**
   * After a successful login the stored cookie satisfies the gate: no path is redirected to
   * the login page any more, by the proxy as written or as corrected.
   */
  lemma LoginOpensGate(b: Browser, body: Result<Value, string>, secret: Option<string>, production: bool,
                       host: Option<string>, pathname: string)
    requires Login(body, secret, production).Reply? && Login(body, secret, production).status == 200
    ensures var b' := AfterLogin(b, Login(body, secret, production));
            !OpsProxy.Proxy(host, pathname, b'.session, secret).RedirectToLogin? &&
            !OpsProxy.GatedProxy(host, pathname, b'.session, secret).RedirectToLogin?
  {
  }

  /** A failed login leaves the browser as it was, so a refused browser stays refused. */
  lemma FailedLoginKeepsRefusal(b: Browser, body: Result<Value, string>, secret: Option<string>, production: bool,
                                pathname: string)
    requires Login(body, secret, production).Reply? && Login(body, secret, production).status != 200
    requires OpsProxy.Gated(pathname) && !OpsProxy.Admitted(b.session, secret)
    ensures AfterLogin(b, Login(body, secret, production)) == b
    ensures OpsProxy.GatedProxy(None, pathname, b.session, secret).RedirectToLogin?
  {
    assert !OpsProxy.IsOpsHost("");
  }
}
