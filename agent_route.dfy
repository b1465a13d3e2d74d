/** `POST /api/agent` (the assistant's JSON relay) and `GET /api/agent` (the agent listing). */
module AgentRoute {
  import opened Common
  import opened Json
  import opened AgentRelay

  const TextPath := "/agents/iisf-assistant/text"

  /** The reply of the `GET` handler whenever the listing cannot be relayed. */
  const ListingUnavailable := JsonReply(503, ErrorObject("Agent service unavailable"))

  /** The outcome of the last request a handler issued. */
  function LastOutcome(h: Handled, upstream: Upstream): FetchOutcome
    requires h.sent != []
  {
    upstream(h.sent[|h.sent| - 1])
  }

  /**
   * `POST /api/agent`, where `body` is what `request.json()` gave. The client body is sent
   * with the secret as Bearer token; a failed upstream answer is relayed with its own status.
   */
  function Post(secret: string, body: Result<Value, string>, base: string, upstream: Upstream, parse: Parser)
    : (h: Handled)
    ensures WellFormed(h.reply) && h.reply.JsonReply?
    ensures secret == "" ==> h == Handled(NotConfigured, [])
    ensures secret != "" && body.Err? ==> h == Handled(RetryLater, [])
    ensures secret != "" && body.Ok? ==>
      h.sent == FetchAgentSpec(base, TextPath, Init("POST", "Bearer " + secret, Some(body.value)), upstream).sent
    ensures h.sent != [] ==>
      match LastOutcome(h, upstream)
      case Threw(_) => h.reply == RetryLater
      case Answered(resp) =>
        if !resp.Ok() then h.reply == RelayFailure(resp, parse)
        else if parse(resp.BodyText()).Ok? then h.reply == JsonReply(200, parse(resp.BodyText()).value)
        else h.reply == RetryLater
  {
    if secret == "" then Handled(NotConfigured, [])
    else if body.Err? then Handled(RetryLater, [])
    else
      var r := FetchAgentSpec(base, TextPath, Init("POST", "Bearer " + secret, Some(body.value)), upstream);
      var reply :=
        match r.outcome
        case Threw(_) => RetryLater
        case Answered(resp) =>
          if !resp.Ok() then RelayFailure(resp, parse)
          else match parse(resp.BodyText())
            case Ok(data) => JsonReply(200, data)
            case Err(_) => RetryLater;
      Handled(reply, r.sent)
  }

  /** `GET /api/agent`: the listing is relayed on success; every failure is a 503, whatever the upstream status. */
  function Get(secret: string, base: string, upstream: Upstream, parse: Parser): (h: Handled)
    ensures WellFormed(h.reply) && h.reply.JsonReply?
    ensures secret == "" ==> h == Handled(NotConfigured, [])
    ensures secret != "" ==> h.sent == FetchAgentSpec(base, "/agents", Init("GET", "Bearer " + secret, None), upstream).sent
    ensures h.sent != [] ==>
      var o := LastOutcome(h, upstream);
      if o.Answered? && o.response.Ok() && parse(o.response.BodyText()).Ok?
      then h.reply == JsonReply(200, parse(o.response.BodyText()).value)
      else h.reply == ListingUnavailable
  {
    if secret == "" then Handled(NotConfigured, [])
    else
      var r := FetchAgentSpec(base, "/agents", Init("GET", "Bearer " + secret, None), upstream);
      var reply :=
        match r.outcome
        case Threw(_) => ListingUnavailable
        case Answered(resp) =>
          if !resp.Ok() then ListingUnavailable
          else match parse(resp.BodyText())
            case Ok(data) => JsonReply(200, data)
            case Err(_) => ListingUnavailable;
      Handled(reply, r.sent)
  }

  /** An upstream failure with a status `NextResponse` can carry comes back with that status and `upstreamStatus`. */
  lemma PostKeepsUpstreamStatus(secret: string, body: Value, base: string, upstream: Upstream, parse: Parser)
    requires secret != ""
    requires var o := upstream(Request(base + TextPath, Init("POST", "Bearer " + secret, Some(body))));
             o.Answered? && !o.response.Ok() && o.response.status != 404 && o.response.status != 405
             && ReplyableStatus(o.response.status)
    ensures var h := Post(secret, Ok(body), base, upstream, parse);
            var status := upstream(Request(base + TextPath, Init("POST", "Bearer " + secret, Some(body)))).response.status;
            |h.sent| == 1 && h.reply.status == status && h.reply.body.fields["upstreamStatus"] == Num(status)
  {
  }
}
