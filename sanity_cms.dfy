/**
 * The two CMS tools: `sanity_query` runs a GROQ query through the public query endpoint, and
 * `sanity_create_draft` turns a plain-text body into block content and creates a draft post.
 * The HTTP calls are replaced by their answers; the clock is a parameter.
 */
module SanityCms {
  import opened Common
  import opened Text
  import Numerals
  import Json
  import Paragraphs
  import UriEncoding

  const ProjectId := "vhmqtcio"
  const Dataset := "production"
  const ApiVersion := "2026-02-18"
  /** Everything in an API URL before the path. */
  const ApiBase := "https://" + ProjectId + ".api.sanity.io/v" + ApiVersion + "/data/"
  const MissingToken := "SANITY_API_TOKEN not configured. Generate an Editor token at https://www.sanity.io/manage/project/vhmqtcio/api#tokens"
  const StudioBase := "https://intersectionalsafety.org/studio/structure/post;"
  const DraftPrefix := "drafts."

  /** `sanityUrl(path)`: the path sits between the fixed base and the dataset. */
  function SanityUrl(path: string): (u: string)
    ensures |u| == |ApiBase| + |path| + 1 + |Dataset|
    ensures u[..|ApiBase|] == ApiBase && u[|ApiBase|..|ApiBase| + |path|] == path
    ensures u[|ApiBase| + |path|..] == "/" + Dataset
  {
    ApiBase + path + "/" + Dataset
  }

  /** Different paths give different URLs. */
  lemma SanityUrlInjective(p: string, q: string)
    requires SanityUrl(p) == SanityUrl(q)
    ensures p == q
  {
    assert |p| == |q|;
  }

  /** The query URL: the GROQ text, URL-encoded, as the `query` parameter. */
  function QueryUrl(query: string): (u: string)
    ensures StartsWith(u, SanityUrl("query") + "?query=")
    ensures UriEncoding.Decode(u[|SanityUrl("query") + "?query="|..]) == UriEncoding.Utf8Of(query)
  {
    var head := SanityUrl("query") + "?query=";
    var u := head + UriEncoding.Encode(query);
    assert u[..|head|] == head && u[|head|..] == UriEncoding.Encode(query);
    UriEncoding.DecodeEncode(query);
    u
  }

  /** What a request does: a response (with the `result`/`transactionId` of its JSON), or a thrown error. */
  datatype QueryAnswer = QueryResponded(ok: bool, status: int, result: Option<Json.Value>) | QueryThrew(message: string)

  datatype QueryReport = QueryFailed(error: string) | QueryResult(result: Option<Json.Value>)

  /** `sanityQueryTool.execute`: the request is always made, to `QueryUrl(query)`. */
  function Query(query: string, answer: QueryAnswer): (r: QueryReport)
    ensures r.QueryResult? <==> answer.QueryResponded? && answer.ok
    ensures r.QueryResult? ==> r.result == answer.result
    ensures answer.QueryResponded? && !answer.ok ==> r == QueryFailed("Sanity query error: " + Numerals.IntToString(answer.status))
    ensures answer.QueryThrew? ==> r == QueryFailed("Sanity query failed: " + answer.message)
  {
    match answer
    case QueryResponded(ok, status, result) =>
      if ok then QueryResult(result) else QueryFailed("Sanity query error: " + Numerals.IntToString(status))
    case QueryThrew(m) => QueryFailed("Sanity query failed: " + m)
  }

  /** A span and a block of Portable Text (their random `_key`s are not modelled). */
  datatype Span = Span(text: string)
  datatype Block = Block(style: string, children: seq<Span>)

  /** One block per paragraph, each holding the trimmed paragraph as its one span. */
  function Blocks(body: string): (bs: seq<Block>)
    ensures |bs| == |Paragraphs.Of(body)|
    ensures forall i :: 0 <= i < |bs| ==> bs[i] == Block("normal", [Span(Trim(Paragraphs.Of(body)[i]))])
  {
    var ps := Paragraphs.Of(body);
    seq(|ps|, i requires 0 <= i < |ps| => Block("normal", [Span(Trim(ps[i]))]))
  }

  /** No span text has white space at either end, and none spans two paragraphs. */
  lemma SpansTrimmed(body: string, i: nat)
    requires i < |Blocks(body)|
    ensures var t := Blocks(body)[i].children[0].text;
            Trim(t) == t && Paragraphs.NoBreak(t)
  {
    var p := Paragraphs.Of(body)[i];
    assert p in Paragraphs.Of(body);
    TrimIdempotent(p);
    var t := TrimStart(p);
    Paragraphs.NoBreakDrop(p, |p| - |t|);
    TrimOfStart(p);
    Paragraphs.NoBreakTake(t, |Trim(p)|);
  }

  /** `drafts.` and the time stamp in base 36. */
  function DraftId(now: nat): (id: string)
    ensures StartsWith(id, DraftPrefix)
    ensures Numerals.FromRadix(id[|DraftPrefix|..], 36) == now
  {
    var id := DraftPrefix + Numerals.ToRadix(now, 36);
    assert id[|DraftPrefix|..] == Numerals.ToRadix(now, 36);
    Numerals.RadixRoundTrip(now, 36);
    id
  }

  /** Drafts created at different times get different ids. */
  lemma DraftIdsDiffer(m: nat, n: nat)
    requires m != n
    ensures DraftId(m) != DraftId(n)
  {
  }

  function StudioUrl(id: string): (u: string)
    ensures EndsWith(u, id) && StartsWith(u, StudioBase)
  {
    var u := StudioBase + id;
    assert u[|u| - |id|..] == id && u[..|StudioBase|] == StudioBase;
    u
  }

  datatype DraftArgs = DraftArgs(title: string, slug: string, excerpt: string, bodyMarkdown: string, categoryTitle: Option<string>)

  /** The `create` mutation of a draft post. */
  datatype Create = Create(id: string, title: string, slug: string, publishedAt: string, excerpt: string, body: seq<Block>)

  /** The mutation request: its URL, its credentials and its mutations. */
  datatype Mutate = Mutate(url: string, authorization: string, mutations: seq<Create>)

  datatype MutateAnswer = Accepted(transactionId: Option<Json.Value>) | Refused(status: int, body: string) | Threw(message: string)

  datatype DraftReport =
    | DraftFailed(error: string)
    | Created(draftId: string, studioUrl: string, transactionId: Option<Json.Value>, message: string)

  datatype DraftOutcome = DraftOutcome(report: DraftReport, sent: Option<Mutate>)

  function CreatedMessage(title: string): string {
    "Draft created: \"" + title + "\". Review and publish in Sanity Studio."
  }

  /** The mutation that creates the draft for `args` at time `now` (`isoNow` is its ISO rendering). */
  function MutationOf(token: string, args: DraftArgs, now: nat, isoNow: string): (m: Mutate)
    ensures m.url == SanityUrl("mutate") && m.authorization == "Bearer " + token
    ensures |m.mutations| == 1
    ensures m.mutations[0] == Create(DraftId(now), args.title, args.slug, isoNow, args.excerpt, Blocks(args.bodyMarkdown))
  {
    Mutate(SanityUrl("mutate"), "Bearer " + token,
      [Create(DraftId(now), args.title, args.slug, isoNow, args.excerpt, Blocks(args.bodyMarkdown))])
  }

  /** `sanityCreateDraftTool.execute`, given the token variable, the clock and the API's answer. */
  function CreateDraft(token: Option<string>, args: DraftArgs, now: nat, isoNow: string, answer: MutateAnswer): (r: DraftOutcome)
    ensures token.None? || token.value == "" ==> r == DraftOutcome(DraftFailed(MissingToken), None)
    ensures r.sent.Some? <==> token.Some? && token.value != ""
    ensures r.sent.Some? ==> r.sent.value == MutationOf(token.value, args, now, isoNow)
    ensures r.report.Created? <==> r.sent.Some? && answer.Accepted?
    ensures r.report.Created? ==>
      r.report == Created(DraftId(now), StudioUrl(DraftId(now)), answer.transactionId, CreatedMessage(args.title))
    ensures r.sent.Some? && answer.Refused? ==>
      r.report == DraftFailed("Sanity mutation error " + Numerals.IntToString(answer.status) + ": " + answer.body)
    ensures r.sent.Some? && answer.Threw? ==> r.report == DraftFailed("Sanity create failed: " + answer.message)
  {
    if token.None? || token.value == "" then DraftOutcome(DraftFailed(MissingToken), None)
    else
      var id := DraftId(now);
      var report := match answer
        case Accepted(tx) => Created(id, StudioUrl(id), tx, CreatedMessage(args.title))
        case Refused(status, text) => DraftFailed("Sanity mutation error " + Numerals.IntToString(status) + ": " + text)
        case Threw(m) => DraftFailed("Sanity create failed: " + m);
      DraftOutcome(report, Some(MutationOf(token.value, args, now, isoNow)))
  }

  /** A created draft's studio link ends with the id of the document the mutation created. */
  lemma StudioLinksCreatedDraft(token: string, args: DraftArgs, now: nat, isoNow: string, tx: Option<Json.Value>)
    requires token != ""
    ensures var r := CreateDraft(Some(token), args, now, isoNow, Accepted(tx));
            r.report.Created? && EndsWith(r.report.studioUrl, r.sent.value.mutations[0].id)
            && StartsWith(r.report.draftId, DraftPrefix)
  {
  }
}
