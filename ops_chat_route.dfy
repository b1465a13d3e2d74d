/** `POST /api/ops/chat`: the streaming relay to the operations agent. */
module OpsChatRoute {
  import opened Common
  import opened Json
  import opened AgentRelay

  const StreamPath := "/agents/iisf-ops/stream"

  /**
   * The body sent upstream: the client's `input` and `conversationId` (dropped when undefined),
   * its `userId` or "ops-dashboard", and `stream: true`.
   */
  function UpstreamBody(b: Value): (v: Value)
    ensures v.Obj? && "stream" in v.fields && v.fields["stream"] == Bool(true)
    ensures "userId" in v.fields &&
            v.fields["userId"] == (if Present(Get(b, "userId")) then b.fields["userId"] else Str("ops-dashboard"))
    ensures Get(v, "input") == Get(b, "input") && Get(v, "conversationId") == Get(b, "conversationId")
    ensures v.fields.Keys <= {"input", "userId", "conversationId", "stream"}
  {
    var userId := Or(Get(b, "userId"), Some(Str("ops-dashboard"))).value;
    var fields := map["userId" := userId, "stream" := Bool(true)];
    Obj(WithOptional(WithOptional(fields, "input", Get(b, "input")), "conversationId", Get(b, "conversationId")))
  }

  /**
   * `POST /api/ops/chat`, where `body` is what `request.json()` gave; reading a property of
   * a `null` body throws before any request.
   */
  function Post(secret: string, body: Result<Value, string>, base: string, upstream: Upstream, parse: Parser)
    : (h: Handled)
    ensures WellFormed(h.reply)
    ensures secret == "" ==> h == Handled(NotConfigured, [])
    ensures secret != "" && (body.Err? || body.value == Null) ==> h == Handled(RetryLater, [])
    ensures secret != "" && body.Ok? && body.value != Null ==>
      var r := FetchAgentSpec(base, StreamPath, Init("POST", "Bearer " + secret, Some(UpstreamBody(body.value))), upstream);
      h == Handled(RelayStream(r.outcome, parse), r.sent)
    ensures h.reply.StreamReply? ==> |h.sent| >= 1
  {
    if secret == "" then Handled(NotConfigured, [])
    else if body.Err? || body.value == Null then Handled(RetryLater, [])
    else
      var r := FetchAgentSpec(base, StreamPath, Init("POST", "Bearer " + secret, Some(UpstreamBody(body.value))), upstream);
      Handled(RelayStream(r.outcome, parse), r.sent)
  }

  /** A client that names no user is relayed as "ops-dashboard", and the stream flag is always set. */
  lemma DefaultUser(b: Value)
    requires b.Obj? && "userId" !in b.fields
    ensures UpstreamBody(b).fields["userId"] == Str("ops-dashboard")
  {
  }
}
