/**
 * `POST /api/ops/verify`: the same prompt is sent to several agents and the answers are
 * compared by the overlap of their long words.
 */
module VerifyRoute {
  import opened Common
  import opened Json
  import opened AgentRelay
  import Text

  /** One agent's entry in `results` (its `durationMs` is not modelled). */
  datatype AgentResult = AgentResult(agent: Value, response: Value, error: Option<Value>)

  /** The entry as a JSON object; `error` is dropped when undefined. */
  function ResultValue(r: AgentResult): Value {
    Obj(WithOptional(map["agent" := r.agent, "response" := r.response], "error", r.error))
  }

  /** One query's entry and the requests it made. */
  datatype Queried = Queried(result: AgentResult, sent: seq<Request>)

  function AgentPath(agent: Value): string {
    "/agents/" + ToJsString(agent) + "/text"
  }

  function QueryInit(input: string, secret: string): Init {
    Init("POST", "Bearer " + secret, Some(Obj(map["input" := Str(input), "userId" := Str("ops-verify")])))
  }

  /** `data?.text || data?.output || data?.message || ""`. */
  function ReplyText(data: Value): (t: Value)
    ensures Truthy(t) || t == Str("")
  {
    if Present(Get(data, "text")) then data.fields["text"]
    else if Present(Get(data, "output")) then data.fields["output"]
    else if Present(Get(data, "message")) then data.fields["message"]
    else Str("")
  }

  /**
   * `queryAgent(agent, input)`. It never throws: a missing secret, an exception, a failed
   * answer and an unreadable body each become an `error` entry, and the error is absent
   * exactly when the last request was answered OK with a JSON body.
   */
  function QueryAgent(agent: Value, input: string, secret: string, base: string, upstream: Upstream, parse: Parser)
    : (q: Queried)
    ensures q.result.agent == agent
    ensures secret == "" ==> q.sent == [] && q.result.error == Some(Str("IISF_AGENT_SECRET is not configured"))
    ensures secret != "" ==> q.sent == FetchAgentSpec(base, AgentPath(agent), QueryInit(input, secret), upstream).sent
    ensures q.result.error.None? <==>
      q.sent != [] &&
      var o := upstream(q.sent[|q.sent| - 1]);
      o.Answered? && o.response.Ok() && parse(o.response.BodyText()).Ok?
    ensures q.result.error.None? ==>
      q.result.response == ReplyText(parse(upstream(q.sent[|q.sent| - 1]).response.BodyText()).value)
    ensures q.result.error.Some? ==> q.result.response == Str("")
  {
    if secret == "" then
      Queried(AgentResult(agent, Str(""), Some(Str("IISF_AGENT_SECRET is not configured"))), [])
    else
      var r := FetchAgentSpec(base, AgentPath(agent), QueryInit(input, secret), upstream);
      var result :=
        match r.outcome
        case Threw(e) => AgentResult(agent, Str(""), Some(Str(e)))
        case Answered(resp) =>
          if !resp.Ok() then AgentResult(agent, Str(""), Some(NormalizeErrorPayload(resp.BodyText(), parse)))
          else match parse(resp.BodyText())
            case Err(msg) => AgentResult(agent, Str(""), Some(Str(ErrorString("SyntaxError", msg))))
            case Ok(data) => AgentResult(agent, ReplyText(data), None);
      Queried(result, r.sent)
  }

  const DefaultAgents: seq<Value> := [Str("iisf-ops"), Str("iisf-assistant")]

  /**
   * `agents?.length ? agents : [...]` followed by `agentIds.map`: a non-empty array is used as
   * given, an absent, null or empty value falls back to the two top-level agents, and a
   * non-empty string or an object with a truthy `length` has no `map` and throws (`None`).
   */
  function AgentIds(agents: Option<Value>): (ids: Option<seq<Value>>)
    ensures agents.Some? && agents.value.Arr? && agents.value.items != [] ==> ids == Some(agents.value.items)
    ensures agents.None? || agents == Some(Null) || agents == Some(Arr([])) ==> ids == Some(DefaultAgents)
    ensures ids.Some? ==> ids.value != []
  {
    match agents
    case None => Some(DefaultAgents)
    case Some(v) =>
      match v
      case Arr(items) => if items != [] then Some(items) else Some(DefaultAgents)
      case Str(s) => if s != "" then None else Some(DefaultAgents)
      case Obj(_) => if Present(Get(v, "length")) then None else Some(DefaultAgents)
      case _ => Some(DefaultAgents)
  }

  /** `Promise.all(agentIds.map(id => queryAgent(id, input)))`, taken in order. */
  function QueryAll(ids: seq<Value>, input: string, secret: string, base: string, upstream: Upstream, parse: Parser)
    : (r: (seq<AgentResult>, seq<Request>))
    ensures |r.0| == |ids|
    ensures forall i :: 0 <= i < |ids| ==> r.0[i] == QueryAgent(ids[i], input, secret, base, upstream, parse).result
    ensures forall i :: 0 <= i < |ids| ==> r.0[i].agent == ids[i]
    decreases |ids|
  {
    if ids == [] then ([], [])
    else
      var q := QueryAgent(ids[0], input, secret, base, upstream, parse);
      var rest := QueryAll(ids[1..], input, secret, base, upstream, parse);
      ([q.result] + rest.0, q.sent + rest.1)
  }

  /**
   * `results.filter(r => !r.error).map(r => r.response.toLowerCase())`; a kept response that
   * is not a string has no `toLowerCase` and throws (`None`).
   */
  function Responses(results: seq<AgentResult>): (rs: Option<seq<string>>)
    ensures rs.Some? ==> |rs.value| <= |results|
    decreases |results|
  {
    if results == [] then Some([])
    else
      var rest := Responses(results[1..]);
      var r := results[0];
      if Present(r.error) then rest
      else if r.response.Str? && rest.Some? then Some([Text.ToLower(r.response.s)] + rest.value)
      else None
  }

  datatype Level = High | Medium | Low {
    function Name(): string {
      match this
      case High => "high"
      case Medium => "medium"
      case Low => "low"
    }
  }

  /** `new Set(response.split(/\s+/).filter(w => w.length > 4))`. */
  function LongWords(response: string): set<string> {
    set w | w in Text.Tokens(response) && Text.JsLength(w) > 4
  }

  /** `Math.max(words0.size, words1.size, 1)`. */
  function Denominator(w0: set<string>, w1: set<string>): (d: nat)
    ensures d >= 1 && d >= |w0| && d >= |w1|
  {
    if |w0| >= |w1| && |w0| >= 1 then |w0| else if |w1| >= 1 then |w1| else 1
  }

  /**
   * The agreement level, with `overlap < 0.2` written `5 * shared < denominator` and
   * `overlap < 0.4` written `5 * shared < 2 * denominator`.
   */
  function Agreement(responses: seq<string>): Level {
    if |responses| < 2 then High
    else
      var w0 := LongWords(responses[0]);
      var w1 := LongWords(responses[1]);
      var shared := |w0 * w1|;
      var d := Denominator(w0, w1);
      if 5 * shared < d then Low else if 5 * shared < 2 * d then Medium else High
  }

  /** `intersection.length / Math.max(...)` as an exact ratio. */
  ghost function Overlap(shared: nat, d: nat): real
    requires d >= 1
  {
    shared as real / d as real
  }

  /** The level the source computes from the ratio itself. */
  ghost function RatioLevel(responses: seq<string>): Level {
    if |responses| < 2 then High
    else
      var w0 := LongWords(responses[0]);
      var w1 := LongWords(responses[1]);
      var overlap := Overlap(|w0 * w1|, Denominator(w0, w1));
      if overlap < 0.2 then Low else if overlap < 0.4 then Medium else High
  }

  /** Comparing the ratio with 0.2 and 0.4 is comparing by cross-multiplication. */
  lemma {:induction false} CrossMultiplication(shared: nat, d: nat)
    requires d >= 1
    ensures Overlap(shared, d) < 0.2 <==> 5 * shared < d
    ensures Overlap(shared, d) < 0.4 <==> 5 * shared < 2 * d
  {
    var q := Overlap(shared, d);
    assert q * d as real == shared as real;
    RatioBelow(q, shared as real, d as real, 0.2);
    RatioBelow(q, shared as real, d as real, 0.4);
    assert 0.2 * d as real * 5.0 == (d as real);
    assert 0.4 * d as real * 5.0 == (2 * d) as real;
  }

  /** For `q = s / d` with `d > 0`: `q < t` exactly when `5s < 5td`. */
  lemma RatioBelow(q: real, s: real, d: real, t: real)
    requires d > 0.0 && q * d == s
    ensures q < t <==> 5.0 * s < 5.0 * (t * d)
  {
    ScaleStrict(q, t, d);
  }

  /** Multiplying both sides by a positive number keeps a strict comparison. */
  lemma ScaleStrict(a: real, b: real, k: real)
    requires k > 0.0
    ensures a < b <==> a * k < b * k
  {
    assert b * k - a * k == (b - a) * k;
    if a < b {
      assert (b - a) * k > 0.0;
    } else {
      assert (a - b) * k >= 0.0;
    }
  }

  /** The integer test and the ratio test give the same level for every pair of responses. */
  lemma AgreementIsRatioTest(responses: seq<string>)
    ensures Agreement(responses) == RatioLevel(responses)
  {
    if |responses| >= 2 {
      var w0 := LongWords(responses[0]);
      var w1 := LongWords(responses[1]);
      CrossMultiplication(|w0 * w1|, Denominator(w0, w1));
    }
  }

  /** Only the first two successful responses take part. */
  lemma AgreementUsesFirstTwo(responses: seq<string>)
    requires |responses| >= 2
    ensures Agreement(responses) == Agreement(responses[..2])
  {
  }

  /** Two responses sharing no long word disagree. */
  lemma DisjointResponsesAreLow(responses: seq<string>)
    requires |responses| >= 2
    requires LongWords(responses[0]) * LongWords(responses[1]) == {}
    ensures Agreement(responses) == Low
  {
  }

  /** Two identical responses with at least one long word agree. */
  lemma {:induction false} IdenticalResponsesAreHigh(s: string, rest: seq<string>)
    requires LongWords(s) != {}
    ensures Agreement([s, s] + rest) == High
  {
    var w := LongWords(s);
    assert ([s, s] + rest)[0] == s && ([s, s] + rest)[1] == s;
    assert w * w == w;
    assert |w| >= 1;
  }

  /** Two identical responses without a word longer than four characters count as disagreeing. */
  lemma {:induction false} IdenticalShortResponsesAreLow(s: string, rest: seq<string>)
    requires LongWords(s) == {}
    ensures Agreement([s, s] + rest) == Low
  {
    assert ([s, s] + rest)[0] == s && ([s, s] + rest)[1] == s;
  }

  /** The body of a 200 reply. */
  function SuccessBody(input: string, results: seq<AgentResult>, level: Level, timestamp: string): Value {
    Obj(map[
      "input" := Str(input),
      "results" := Arr(seq(|results|, i requires 0 <= i < |results| => ResultValue(results[i]))),
      "agreement" := Str(level.Name()),
      "timestamp" := Str(timestamp)])
  }

  /** `input` is a non-empty string: the negation of `!input || typeof input !== "string"`. */
  predicate ValidInput(b: Value) {
    b.Obj? && "input" in b.fields && b.fields["input"].Str? && b.fields["input"].s != ""
  }

  const Failed := JsonReply(500, ErrorObject("Verification failed"))
  const InputRequired := JsonReply(400, ErrorObject("input is required"))

  /**
   * `POST /api/ops/verify`, where `body` is what `request.json()` gave and `timestamp` is
   * `new Date().toISOString()`.
   */
  function Post(body: Result<Value, string>, secret: string, base: string, upstream: Upstream, parse: Parser,
                timestamp: string): (h: Handled)
    ensures WellFormed(h.reply) && h.reply.JsonReply?
    ensures h.reply.status in {200, 400, 500}
    ensures body.Err? || body.value == Null ==> h == Handled(Failed, [])
    ensures body.Ok? && body.value != Null && !ValidInput(body.value) ==> h == Handled(InputRequired, [])
    ensures h.reply.status == 200 ==>
      body.Ok? && ValidInput(body.value) && AgentIds(Get(body.value, "agents")).Some? &&
      var input := body.value.fields["input"].s;
      var ids := AgentIds(Get(body.value, "agents")).value;
      var results := QueryAll(ids, input, secret, base, upstream, parse).0;
      Responses(results).Some? &&
      h.reply.body == SuccessBody(input, results, Agreement(Responses(results).value), timestamp)
    ensures body.Ok? && ValidInput(body.value) && AgentIds(Get(body.value, "agents")).None? ==>
      h == Handled(Failed, [])
    ensures body.Ok? && ValidInput(body.value) && AgentIds(Get(body.value, "agents")).Some? ==>
      var input := body.value.fields["input"].s;
      var ids := AgentIds(Get(body.value, "agents")).value;
      var (results, sent) := QueryAll(ids, input, secret, base, upstream, parse);
      h == if Responses(results).Some?
           then Handled(JsonReply(200, SuccessBody(input, results, Agreement(Responses(results).value), timestamp)), sent)
           else Handled(Failed, sent)
  {
    if body.Err? || body.value == Null then Handled(Failed, [])
    else
      var b := body.value;
      if !ValidInput(b) then Handled(InputRequired, [])
      else
        var input := b.fields["input"].s;
        match AgentIds(Get(b, "agents"))
        case None => Handled(Failed, [])
        case Some(ids) =>
          var (results, sent) := QueryAll(ids, input, secret, base, upstream, parse);
          match Responses(results)
          case None => Handled(Failed, sent)
          case Some(responses) =>
            Handled(JsonReply(200, SuccessBody(input, results, Agreement(responses), timestamp)), sent)
  }

  /** One result per requested agent, in request order, each naming its agent. */
  lemma ResultsFollowRequest(agents: seq<Value>, input: string, secret: string, base: string, upstream: Upstream,
                             parse: Parser)
    requires agents != []
    ensures var results := QueryAll(AgentIds(Some(Arr(agents))).value, input, secret, base, upstream, parse).0;
            |results| == |agents| && forall i :: 0 <= i < |agents| ==> results[i].agent == agents[i]
  {
  }

  /** Without a secret every agent gets the not-configured error, no request is made, and agreement is high. */
  lemma {:induction false} NoSecretNoRequests(ids: seq<Value>, input: string, base: string, upstream: Upstream,
                                              parse: Parser)
    ensures var r := QueryAll(ids, input, "", base, upstream, parse);
            r.1 == [] && Responses(r.0) == Some([])
    decreases |ids|
  {
    if ids != [] {
      NoSecretNoRequests(ids[1..], input, base, upstream, parse);
    }
  }

  /**
   * An upstream failure with an empty body yields the falsy error "", so its entry counts as
   * a successful, empty response in the comparison.
   */
  lemma EmptyFailureCountsAsAnswer(agent: Value, input: string, secret: string, base: string, upstream: Upstream,
                                   parse: Parser)
    requires secret != ""
    requires var o := upstream(Request(base + AgentPath(agent), QueryInit(input, secret)));
             o == Answered(Response(500, Some("")))
    requires parse("").Err?
    ensures var q := QueryAgent(agent, input, secret, base, upstream, parse);
            q.result.error == Some(Str("")) && Responses([q.result]) == Some([""])
  {
    var q := QueryAgent(agent, input, secret, base, upstream, parse);
    assert q.result.error == Some(Str(""));
    assert q.result.response == Str("");
    assert [q.result][1..] == [];
    assert Responses([]) == Some([]);
    assert Text.ToLower("") == "";
    assert [Text.ToLower("")] + [] == [""];
  }
}
