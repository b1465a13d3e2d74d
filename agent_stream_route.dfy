/** `POST /api/agent/stream`: the assistant's streaming relay. */
module AgentStreamRoute {
  import opened Common
  import opened Json
  import opened AgentRelay

  const StreamPath := "/agents/iisf-assistant/stream"

  /** `POST /api/agent/stream`: the client body is forwarded unchanged, whatever JSON value it is. */
  function Post(secret: string, body: Result<Value, string>, base: string, upstream: Upstream, parse: Parser)
    : (h: Handled)
    ensures WellFormed(h.reply)
    ensures secret == "" ==> h == Handled(NotConfigured, [])
    ensures secret != "" && body.Err? ==> h == Handled(RetryLater, [])
    ensures secret != "" && body.Ok? ==>
      var r := FetchAgentSpec(base, StreamPath, Init("POST", "Bearer " + secret, Some(body.value)), upstream);
      h == Handled(RelayStream(r.outcome, parse), r.sent)
    ensures forall i :: 0 <= i < |h.sent| ==> h.sent[i].init.body == Some(body.value)
  {
    if secret == "" then Handled(NotConfigured, [])
    else if body.Err? then Handled(RetryLater, [])
    else
      var r := FetchAgentSpec(base, StreamPath, Init("POST", "Bearer " + secret, Some(body.value)), upstream);
      Handled(RelayStream(r.outcome, parse), r.sent)
  }
}
