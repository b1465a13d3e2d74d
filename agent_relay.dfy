/**
 * The relay to the agent server shared by the agent, agent-stream, ops-chat and
 * ops-verify routes: `fetchAgent` with its "/api" fallback, `normalizeErrorPayload`,
 * and the choice between relaying an upstream failure and passing a stream through.
 */
module AgentRelay {
  import opened Common
  import opened Json
  import Text

  const DefaultAgentUrl := "http://localhost:3141"

  /** `(VOLTAGENT_URL || "http://localhost:3141").replace(/\/$/, "")`. */
  function AgentBase(env: Option<string>): (base: string)
    ensures var chosen := if env.Some? && env.value != "" then env.value else DefaultAgentUrl;
            base == chosen || base + "/" == chosen
  {
    Text.StripTrailingSlash(if env.Some? && env.value != "" then env.value else DefaultAgentUrl)
  }

  /** `IISF_AGENT_SECRET || ""`: the empty string stands for "not configured". */
  function AgentSecret(env: Option<string>): string {
    env.GetOr("")
  }

  /** An upstream response: its status and its body text; `None` is a response without a body. */
  datatype Response = Response(status: int, body: Option<string>) {
    /** `response.ok`. */
    predicate Ok() {
      200 <= status <= 299
    }

    /** `await response.text()`. */
    function BodyText(): string {
      body.GetOr("")
    }
  }

  /**
   * The options of a relayed request: its HTTP method, its `Authorization` header and its JSON
   * body. Every relayed request also carries `Content-Type: application/json`.
   */
  datatype Init = Init(verb: string, authorization: string, body: Option<Value>)

  datatype Request = Request(url: string, init: Init)

  /** What one `fetch` did: it answered, or it rejected with an error rendered by `String(err)`. */
  datatype FetchOutcome = Answered(response: Response) | Threw(error: string)

  /** The agent server, as the outcome it gives each request. */
  type Upstream = Request -> FetchOutcome

  /** `fetchAgent` stops at an outcome that is an exception, a success, or a failure other than 404/405. */
  predicate Decisive(o: FetchOutcome) {
    o.Threw? || o.response.Ok() || (o.response.status != 404 && o.response.status != 405)
  }

  /** The URLs `fetchAgent` tries, in order. */
  function Candidates(base: string, path: string): seq<string> {
    [base + path, base + "/api" + path]
  }

  /** The outcome `fetchAgent` returns and the requests it issued, in order. */
  datatype Relayed = Relayed(outcome: FetchOutcome, sent: seq<Request>)

  /**
   * `fetchAgent(path, init)`: at most two requests, the primary path and then the "/api" path;
   * the second is issued exactly when the first answered 404 or 405, and the outcome is the
   * outcome of the last request issued.
   */
  function FetchAgentSpec(base: string, path: string, init: Init, upstream: Upstream): (r: Relayed)
    ensures 1 <= |r.sent| <= 2
    ensures forall i :: 0 <= i < |r.sent| ==> r.sent[i] == Request(Candidates(base, path)[i], init)
    ensures |r.sent| == 1 <==> Decisive(upstream(r.sent[0]))
    ensures r.outcome == upstream(r.sent[|r.sent| - 1])
  {
    var first := Request(base + path, init);
    if Decisive(upstream(first)) then Relayed(upstream(first), [first])
    else
      var second := Request(base + "/api" + path, init);
      Relayed(upstream(second), [first, second])
  }

  /** The loop of `fetchAgent` over the two candidate paths, keeping the last 404/405 response. */
  method FetchAgent(base: string, path: string, init: Init, upstream: Upstream)
    returns (outcome: FetchOutcome, sent: seq<Request>)
    ensures Relayed(outcome, sent) == FetchAgentSpec(base, path, init, upstream)
  {
    var paths := [path, "/api" + path];
    assert base + paths[1] == Candidates(base, path)[1];
    var fallback: Option<Response> := None;
    sent := [];
    var i := 0;
    while i < |paths|
      invariant 0 <= i <= |paths|
      invariant |sent| == i
      invariant forall k :: 0 <= k < i ==> sent[k] == Request(Candidates(base, path)[k], init)
      invariant forall k :: 0 <= k < i ==> !Decisive(upstream(sent[k]))
      invariant i > 0 ==> fallback == Some(upstream(sent[i - 1]).response)
    {
      var request := Request(base + paths[i], init);
      sent := sent + [request];
      var o := upstream(request);
      if o.Threw? || o.response.Ok() || (o.response.status != 404 && o.response.status != 405) {
        outcome := o;
        return;
      }
      fallback := Some(o.response);
      i := i + 1;
    }
    outcome := Answered(fallback.value);
  }

  /**
   * `normalizeErrorPayload(raw)`: the first truthy one of `details`, `error` and `message`
   * of the parsed body, else the raw text; text that does not parse, or parses to `null`,
   * gives the raw text.
   */
  function NormalizeErrorPayload(raw: string, parse: Parser): (r: Value)
    ensures parse(raw).Err? || parse(raw).value == Null ==> r == Str(raw)
    ensures parse(raw).Ok? ==>
      var p := parse(raw).value;
      if Present(Get(p, "details")) then r == p.fields["details"]
      else if Present(Get(p, "error")) then r == p.fields["error"]
      else if Present(Get(p, "message")) then r == p.fields["message"]
      else r == Str(raw)
    ensures Truthy(r) || r == Str(raw)
  {
    match parse(raw)
    case Err(_) => Str(raw)
    case Ok(p) =>
      if Present(Get(p, "details")) then p.fields["details"]
      else if Present(Get(p, "error")) then p.fields["error"]
      else if Present(Get(p, "message")) then p.fields["message"]
      else Str(raw)
  }

  /** What a route handler answers. A stream reply has status 200 and the event-stream headers. */
  datatype Reply =
    | JsonReply(status: int, body: Value)
    | StreamReply(stream: string)

  /** The headers of a passed-through event stream. */
  const EventStreamHeaders: map<string, string> :=
    map["Content-Type" := "text/event-stream", "Cache-Control" := "no-cache", "Connection" := "keep-alive"]

  /** A reply and the upstream requests made to produce it. */
  datatype Handled = Handled(reply: Reply, sent: seq<Request>)

  /**
   * The statuses `NextResponse.json(body, {status})` accepts: outside 200..599 it throws a
   * `RangeError`, and 204, 205 and 304 cannot carry a body.
   */
  predicate ReplyableStatus(status: int) {
    200 <= status <= 599 && status != 204 && status != 205 && status != 304
  }

  /** A handler's reply is a response `NextResponse` can build. */
  predicate WellFormed(r: Reply) {
    r.JsonReply? ==> ReplyableStatus(r.status)
  }

  const NotConfigured := JsonReply(500, ErrorObject("IISF_AGENT_SECRET is not configured"))

  /** The reply of the `catch` block of the POST relays. */
  const RetryLater := JsonReply(503, ErrorObject("Agent service unavailable. Please try again later."))

  /** The `{error, details, upstreamStatus}` body that relays an upstream failure. */
  function FailureBody(resp: Response, parse: Parser): (v: Value)
    ensures v.Obj? && v.fields.Keys == {"error", "details", "upstreamStatus"}
    ensures v.fields["upstreamStatus"] == Num(resp.status)
    ensures v.fields["details"] == NormalizeErrorPayload(resp.BodyText(), parse)
  {
    Obj(map[
      "error" := Str("Agent service unavailable"),
      "details" := NormalizeErrorPayload(resp.BodyText(), parse),
      "upstreamStatus" := Num(resp.status)])
  }

  /**
   * An upstream failure relayed with the upstream's own status; when `NextResponse.json`
   * cannot carry that status it throws, and the handler's `catch` answers `RetryLater`.
   */
  function RelayFailure(resp: Response, parse: Parser): (r: Reply)
    ensures WellFormed(r)
    ensures ReplyableStatus(resp.status) ==> r == JsonReply(resp.status, FailureBody(resp, parse))
    ensures !ReplyableStatus(resp.status) ==> r == RetryLater
  {
    if ReplyableStatus(resp.status) then JsonReply(resp.status, FailureBody(resp, parse)) else RetryLater
  }

  /**
   * The streaming routes' decision: an OK response with a body is passed through as an event
   * stream; any other answer is relayed as a failure; an exception gives `RetryLater`.
   */
  function RelayStream(o: FetchOutcome, parse: Parser): (r: Reply)
    ensures WellFormed(r)
    ensures r.StreamReply? <==> o.Answered? && o.response.Ok() && o.response.body.Some?
    ensures r.StreamReply? ==> r.stream == o.response.body.value
    ensures o.Answered? && !(o.response.Ok() && o.response.body.Some?) ==> r == RelayFailure(o.response, parse)
    ensures o.Threw? ==> r == RetryLater
  {
    match o
    case Threw(_) => RetryLater
    case Answered(resp) =>
      if resp.Ok() && resp.body.Some? then StreamReply(resp.body.value) else RelayFailure(resp, parse)
  }
}
