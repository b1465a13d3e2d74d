/** `lib/agent-server.ts`: where the agent service lives and whether its configuration is usable. */
module AgentServer {
  import opened Common
  import opened Text

  const DefaultLocalAgentUrl := "http://localhost:3141"
  const DefaultProductionAgentUrl := "https://iisf-agent-production.up.railway.app"
  const MissingSecretError := "IISF_AGENT_SECRET is not configured"
  const LocalhostInProductionError := "VOLTAGENT_URL points to localhost in production. Set VOLTAGENT_URL to your Railway URL."

  /** Where the agent URL came from. */
  datatype UrlSource = FromEnv | DefaultLocal | DefaultProduction

  /**
   * `isLocalhostUrl`: the host name of a parsable URL is "localhost" or "127.0.0.1"; an
   * unparsable string falls back to a case-insensitive search for either.
   */
  function IsLocalhostUrl(url: string, parse: UrlParser): (b: bool)
    ensures parse(url).Some? ==> (b <==> parse(url).value.hostname in {"localhost", "127.0.0.1"})
    ensures parse(url).None? ==> (b <==> Contains(ToLower(url), "localhost") || Contains(url, "127.0.0.1"))
  {
    match parse(url)
    case Some(u) => u.hostname == "localhost" || u.hostname == "127.0.0.1"
    case None =>
      LowerKeepsDigits(url);
      Contains(ToLower(url), "localhost") || Contains(ToLower(url), "127.0.0.1")
  }

  /** Lowering case leaves a string without letters where it is. */
  lemma LowerKeepsDigits(url: string)
    ensures Contains(ToLower(url), "127.0.0.1") <==> Contains(url, "127.0.0.1")
  {
    LowerContainsNoLetters(url, "127.0.0.1");
  }

  /** A needle without upper- or lower-case ASCII letters is found in `s` iff in its lowered form. */
  lemma {:induction false} LowerContainsNoLetters(s: string, needle: string)
    requires forall i :: 0 <= i < |needle| ==> LowerChar(needle[i]) == needle[i] && !('a' <= needle[i] <= 'z')
    ensures Contains(ToLower(s), needle) <==> Contains(s, needle)
    decreases |s|
  {
    var t := ToLower(s);
    if |needle| <= |s| {
      assert t[..|needle|] == needle <==> s[..|needle|] == needle by {
        if s[..|needle|] == needle {
          assert forall i :: 0 <= i < |needle| ==> t[i] == needle[i];
        }
        if t[..|needle|] == needle {
          forall i | 0 <= i < |needle| ensures s[i] == needle[i] {
            assert t[i] == LowerChar(s[i]) == needle[i];
          }
        }
      }
    }
    if |s| > 0 {
      assert ToLower(s)[1..] == ToLower(s[1..]);
      LowerContainsNoLetters(s[1..], needle);
    }
  }

  /** The environment variables the resolution reads. */
  datatype Environment = Environment(nodeEnv: Option<string>, voltagentUrl: Option<string>, agentSecret: Option<string>)

  datatype Config = Config(
    agentUrl: string,
    agentSecret: string,
    usesLocalhost: bool,
    isProduction: bool,
    urlSource: UrlSource,
    configError: Option<string>)

  /** `VOLTAGENT_URL?.trim()`, when it is non-empty. */
  function ConfiguredUrl(env: Environment): Option<string> {
    if env.voltagentUrl.Some? && Trim(env.voltagentUrl.value) != "" then Some(Trim(env.voltagentUrl.value)) else None
  }

  /**
   * `resolveAgentServerConfig`: the configured URL, else the production or the local default;
   * at most one trailing "/" removed; a missing secret is reported before a localhost URL in
   * production.
   */
  function Resolve(env: Environment, parse: UrlParser): (c: Config)
    ensures c.isProduction <==> env.nodeEnv == Some("production")
    ensures c.urlSource == FromEnv <==> env.voltagentUrl.Some? && !IsBlank(env.voltagentUrl.value)
    ensures c.urlSource == DefaultProduction <==> c.urlSource != FromEnv && c.isProduction
    ensures var raw := match c.urlSource
                       case FromEnv => Trim(env.voltagentUrl.value)
                       case DefaultProduction => DefaultProductionAgentUrl
                       case DefaultLocal => DefaultLocalAgentUrl;
            c.agentUrl == raw || c.agentUrl + "/" == raw
    ensures c.usesLocalhost == IsLocalhostUrl(c.agentUrl, parse)
    ensures c.configError == (if c.agentSecret == "" then Some(MissingSecretError)
                              else if c.isProduction && c.usesLocalhost then Some(LocalhostInProductionError)
                              else None)
    ensures c.agentSecret == if env.agentSecret.Some? then env.agentSecret.value else ""
  {
    var isProduction := env.nodeEnv == Some("production");
    var configured := ConfiguredUrl(env);
    var source := if configured.Some? then FromEnv else if isProduction then DefaultProduction else DefaultLocal;
    var raw := if configured.Some? then configured.value
               else if isProduction then DefaultProductionAgentUrl else DefaultLocalAgentUrl;
    var agentUrl := StripTrailingSlash(raw);
    var secret := if env.agentSecret.Some? then env.agentSecret.value else "";
    var usesLocalhost := IsLocalhostUrl(agentUrl, parse);
    var error := if secret == "" then Some(MissingSecretError)
                 else if isProduction && usesLocalhost then Some(LocalhostInProductionError)
                 else None;
    Config(agentUrl, secret, usesLocalhost, isProduction, source, error)
  }

  /**
   * A configuration is usable exactly when the environment sets a non-empty secret and, in
   * production, the resolved URL is not a localhost URL.
   */
  lemma UsableConfig(env: Environment, parse: UrlParser)
    ensures Resolve(env, parse).configError.None? <==>
            env.agentSecret.Some? && env.agentSecret.value != "" &&
            !(env.nodeEnv == Some("production") && IsLocalhostUrl(Resolve(env, parse).agentUrl, parse))
  {
  }

  /**
   * Outside production a configured secret is always enough: the localhost check only applies
   * in production.
   */
  lemma DevelopmentNeedsOnlySecret(env: Environment, parse: UrlParser)
    requires env.nodeEnv != Some("production")
    requires env.agentSecret.Some? && env.agentSecret.value != ""
    ensures Resolve(env, parse).configError.None?
  {
  }

  /**
   * In production with nothing configured, the default URL is used and, as long as the parser
   * reads its host name, it is not a localhost URL.
   */
  lemma ProductionDefault(env: Environment, parse: UrlParser)
    requires env.nodeEnv == Some("production")
    requires env.voltagentUrl.None?
    requires env.agentSecret.Some? && env.agentSecret.value != ""
    requires parse(DefaultProductionAgentUrl) == Some(Url("iisf-agent-production.up.railway.app", "/"))
    ensures var c := Resolve(env, parse);
            c.urlSource == DefaultProduction && c.agentUrl == DefaultProductionAgentUrl && c.configError.None?
  {
    assert StripTrailingSlash(DefaultProductionAgentUrl) == DefaultProductionAgentUrl;
  }
}
