/**
 * `proxy.ts`: the request proxy in front of the site. Requests to an ops host name are rewritten
 * into the `/ops` section, and `/ops` pages other than the login page require the session
 * cookie to equal `OPS_PASSWORD` when that is set.
 */
module OpsProxy {
  import opened Common
  import opened Text

  const OpsHosts := ["ops.intersectionalsafety.org", "ops.localhost:3000"]

  /** `h.split(":")[0]`: a host entry without its port. */
  function HostName(h: string): string {
    Split(h, ':')[0]
  }

  /** `OPS_HOSTS.some(h => host.startsWith(h.split(":")[0]))`. */
  predicate IsOpsHost(host: string) {
    exists i :: 0 <= i < |OpsHosts| && StartsWith(host, HostName(OpsHosts[i]))
  }

  /** Host matching is a prefix test against the two port-less ops host names. */
  lemma OpsHostNames(host: string)
    ensures IsOpsHost(host) <==>
            StartsWith(host, "ops.intersectionalsafety.org") || StartsWith(host, "ops.localhost")
  {
    PortlessNames();
    if IsOpsHost(host) {
      var i :| 0 <= i < |OpsHosts| && StartsWith(host, HostName(OpsHosts[i]));
      assert i == 0 || i == 1;
    }
    if StartsWith(host, "ops.intersectionalsafety.org") {
      assert StartsWith(host, HostName(OpsHosts[0]));
    }
    if StartsWith(host, "ops.localhost") {
      assert StartsWith(host, HostName(OpsHosts[1]));
    }
  }

  lemma PortlessNames()
    ensures HostName(OpsHosts[0]) == "ops.intersectionalsafety.org"
    ensures HostName(OpsHosts[1]) == "ops.localhost"
  {
    var h0 := "ops.intersectionalsafety.org";
    assert forall k :: 0 <= k < |h0| ==> h0[k] != ':';
    assert Split(h0, ':') == [h0];
    var h := "ops.localhost:3000";
    assert h[..13] == "ops.localhost";
    assert forall k :: 0 <= k < 13 ==> h[..13][k] != ':';
    SplitHead(h, ':', 13);
  }

  /** What the proxy does with a request. */
  datatype Decision = Rewrite(pathname: string) | RedirectToLogin(from: string) | PassThrough

  /** What is sent to `/ops/login` when a gated page is refused. */
  const LoginPath := "/ops/login"

  /** Request paths the ops-host rewrite leaves alone. */
  predicate InOpsNamespace(path: string) {
    StartsWith(path, "/ops") || StartsWith(path, "/api/ops") || StartsWith(path, "/_next")
  }

  /** `/ops${pathname === "/" ? "" : pathname}`. */
  function RewriteTarget(path: string): (r: string)
    ensures StartsWith(r, "/ops")
  {
    "/ops" + (if path == "/" then "" else path)
  }

  /** The paths the auth gate protects: `/ops` pages other than the login page. */
  predicate Gated(path: string) {
    StartsWith(path, "/ops") && !StartsWith(path, LoginPath) && !StartsWith(path, "/api/ops")
  }

  /** The gate lets a request through: no password is set, or the cookie equals it. */
  predicate Admitted(token: Option<string>, secret: Option<string>) {
    secret.None? || secret.value == "" || token == Some(secret.value)
  }

  /**
   * `proxy` as written: the rewrite is decided first and returned at once, so the gate only
   * sees requests that were not rewritten.
   */
  function Proxy(host: Option<string>, pathname: string, token: Option<string>, secret: Option<string>): (d: Decision)
    ensures d.RedirectToLogin? <==>
            !(IsOpsHost(host.GetOr("")) && !InOpsNamespace(pathname)) && Gated(pathname) && !Admitted(token, secret)
    ensures d.RedirectToLogin? ==> d.from == pathname
    ensures d.Rewrite? <==> IsOpsHost(host.GetOr("")) && !InOpsNamespace(pathname)
    ensures d.Rewrite? ==> d.pathname == RewriteTarget(pathname)
  {
    if IsOpsHost(host.GetOr("")) && !InOpsNamespace(pathname) then Rewrite(RewriteTarget(pathname))
    else if Gated(pathname) && !Admitted(token, secret) then RedirectToLogin(pathname)
    else PassThrough
  }

  /** The page a decision ends up serving, unless it redirects. */
  function Served(d: Decision, pathname: string): Option<string> {
    match d
    case Rewrite(p) => Some(p)
    case PassThrough => Some(pathname)
    case RedirectToLogin(_) => None
  }

  /** With no password set, nothing is ever redirected. */
  lemma NoPasswordNoGate(host: Option<string>, pathname: string, token: Option<string>)
    ensures !Proxy(host, pathname, token, None).RedirectToLogin?
    ensures !Proxy(host, pathname, token, Some("")).RedirectToLogin?
  {
  }

  /**
   * As written, the root of the ops host is rewritten to the dashboard `/ops`, a gated page,
   * and served without any cookie although a password is set.
   */
  lemma OpsHostRootBypassesGate()
    ensures var d := Proxy(Some("ops.intersectionalsafety.org"), "/", None, Some("pw"));
            d == Rewrite("/ops") && Gated("/ops") && !Admitted(None, Some("pw"))
  {
    OpsHostNames("ops.intersectionalsafety.org");
    assert "/"[..1] == "/" && |"/"| < 4;
  }

  /**
   * `proxy` as evidently intended: the gate is applied to the page the request will be served,
   * after the rewrite, so the ops host's pages are gated like `/ops` itself.
   */
  function GatedProxy(host: Option<string>, pathname: string, token: Option<string>, secret: Option<string>): (d: Decision)
    ensures var rewritten := IsOpsHost(host.GetOr("")) && !InOpsNamespace(pathname);
            var effective := if rewritten then RewriteTarget(pathname) else pathname;
            (d.RedirectToLogin? <==> Gated(effective) && !Admitted(token, secret)) &&
            (d.RedirectToLogin? ==> d.from == effective) &&
            (d.Rewrite? <==> rewritten && !d.RedirectToLogin?)
  {
    var rewritten := IsOpsHost(host.GetOr("")) && !InOpsNamespace(pathname);
    var effective := if rewritten then RewriteTarget(pathname) else pathname;
    if Gated(effective) && !Admitted(token, secret) then RedirectToLogin(effective)
    else if rewritten then Rewrite(effective)
    else PassThrough
  }

  /** The corrected proxy serves a gated page only to a request carrying the password. */
  lemma GatedProxyProtects(host: Option<string>, pathname: string, token: Option<string>, secret: Option<string>)
    ensures var served := Served(GatedProxy(host, pathname, token, secret), pathname);
            served.Some? && Gated(served.value) ==> Admitted(token, secret)
  {
  }

  /** The corrected proxy decides exactly like the original wherever the original gates. */
  lemma GatedProxyAgreesOffOpsHost(host: Option<string>, pathname: string, token: Option<string>, secret: Option<string>)
    requires !IsOpsHost(host.GetOr("")) || InOpsNamespace(pathname)
    ensures GatedProxy(host, pathname, token, secret) == Proxy(host, pathname, token, secret)
  {
  }
}
