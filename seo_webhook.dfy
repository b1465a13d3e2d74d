/**
 * `POST /api/seo/webhook`: the CMS publish webhook. It checks a shared secret, works out which
 * pages a content change affects, revalidates them and reports the indexable ones to IndexNow.
 */
module SeoWebhook {
  import opened Common
  import opened Json
  import opened Text
  import Counting

  const DefaultSiteUrl := "https://intersectionalsafety.org"

  /** `(NEXT_PUBLIC_SITE_URL || default).replace(/\/$/, "")`. */
  function SiteUrl(env: Option<string>): string {
    StripTrailingSlash(if env.Some? && env.value != "" then env.value else DefaultSiteUrl)
  }

  /**
   * `extractSlug`: a string gives its trimmed value, an object gives its trimmed `current`
   * when that is a string, and a blank result or anything else gives `null` (None).
   */
  function ExtractSlug(v: Option<Value>): (r: Option<string>)
    ensures r.Some? ==> r.value != [] && Trim(r.value) == r.value
    ensures v.Some? && v.value.Str? ==> r == (if IsBlank(v.value.s) then None else Some(Trim(v.value.s)))
    ensures v.Some? && v.value.Obj? && "current" in v.value.fields && v.value.fields["current"].Str? ==>
      var c := v.value.fields["current"].s;
      r == (if IsBlank(c) then None else Some(Trim(c)))
    ensures r.Some? ==> v.Some? && (v.value.Str? || v.value.Obj?)
  {
    if !Present(v) then None
    else match v.value
      case Str(s) => if Trim(s) == "" then None else TrimIdempotent(s); Some(Trim(s))
      case Obj(f) =>
        if "current" in f && f["current"].Str? then
          var c := Trim(f["current"].s);
          TrimIdempotent(f["current"].s);
          if c == "" then None else Some(c)
        else None
      case _ => None
  }

  /** `a || b` between two slugs (a present slug is never empty, so it is truthy). */
  function OrSlug(a: Option<string>, b: Option<string>): Option<string> {
    if a.Some? then a else b
  }

  /** A URL parser reads no string that starts with "/" as an absolute URL. */
  ghost predicate RejectsPaths(parse: UrlParser) {
    forall s :: StartsWith(s, "/") ==> parse(s).None?
  }

  /**
   * `normalizePath`: blank input gives `null`; otherwise the path name of the value read as a
   * URL, or the value itself, with a leading "/" ensured and trailing slashes removed ("/"
   * when nothing remains).
   */
  function NormalizePath(value: string, parse: UrlParser): (r: Option<string>)
    ensures r.None? <==> IsBlank(value)
    ensures r.Some? ==> StartsWith(r.value, "/") && (r.value == "/" || !EndsWith(r.value, "/"))
  {
    var trimmed := Trim(value);
    if trimmed == "" then None
    else
      var path := match parse(trimmed) case Some(u) => u.pathname case None => trimmed;
      var rooted := if StartsWith(path, "/") then path else "/" + path;
      var stripped := StripTrailingSlashes(rooted);
      Some(if stripped == "" then "/" else stripped)
  }

  /**
   * A normalised path without trailing whitespace normalises to itself, provided the URL
   * parser rejects paths (as `new URL` does without a base).
   */
  lemma NormalizePathIdempotent(value: string, parse: UrlParser)
    requires RejectsPaths(parse)
    requires NormalizePath(value, parse).Some?
    requires var r := NormalizePath(value, parse).value; !IsSpace(r[|r| - 1])
    ensures var r := NormalizePath(value, parse).value; NormalizePath(r, parse) == Some(r)
  {
    var r := NormalizePath(value, parse).value;
    TrimOfTrimmed(r);
    if r != "/" {
      assert !EndsWith(r, "/");
    }
  }

  /**
   * Without that proviso normalising is not idempotent: "a /" gives "/a ", which gives "/a",
   * because trimming happens before the trailing slashes are removed.
   */
  lemma NormalizePathNotIdempotent(parse: UrlParser)
    requires RejectsPaths(parse)
    requires parse("a /").None?
    ensures NormalizePath("a /", parse) == Some("/a ")
    ensures NormalizePath("/a ", parse) == Some("/a")
  {
    assert !IsSpace('a') && !IsSpace('/');
    assert TrimStart("a /") == "a /";
    assert TrimEnd("a /") == "a /";
    assert "/" + "a /" == "/a /";
    assert StripTrailingSlashes("/a /") == StripTrailingSlashes("/a ");
    assert StripTrailingSlashes("/a ") == "/a ";
    assert TrimStart("/a ") == "/a ";
    assert "/a "[..2] == "/a";
    assert TrimEnd("/a ") == TrimEnd("/a");
    assert TrimEnd("/a") == "/a";
    assert StartsWith("/a", "/");
    assert StripTrailingSlashes("/a") == "/a";
  }

  /** `isIndexablePath`. */
  predicate IsIndexablePath(path: string) {
    path == "/" ||
    !(StartsWith(path, "/api") || StartsWith(path, "/ops") || StartsWith(path, "/studio")
      || StartsWith(path, "/_next") || EndsWith(path, ".xml"))
  }

  /** The outcome of `isAuthorized`: `reason` is present exactly when `ok` is false. */
  datatype Auth = Auth(ok: bool, reason: Option<string>)

  /** The token of an `Authorization` header, when it uses the Bearer scheme. */
  function BearerToken(authorization: Option<string>): string {
    if authorization.Some? && StartsWith(authorization.value, "Bearer ") then Trim(authorization.value[7..]) else ""
  }

  /**
   * `isAuthorized`: with no configured secret it fails; otherwise it succeeds exactly when
   * the Bearer token, the `x-webhook-secret` header or the `secret` query parameter, each
   * trimmed, equals the secret.
   */
  function IsAuthorized(secret: Option<string>, authorization: Option<string>, header: Option<string>, query: Option<string>)
    : (a: Auth)
    ensures a.ok <==> a.reason.None?
    ensures (secret.None? || secret.value == "") ==> a == Auth(false, Some("SANITY_WEBHOOK_SECRET is not configured"))
    ensures a.ok <==> (secret.Some? && secret.value != "" &&
                       (BearerToken(authorization) == secret.value
                        || (header.Some? && Trim(header.value) == secret.value)
                        || (query.Some? && Trim(query.value) == secret.value)))
  {
    if secret.None? || secret.value == "" then Auth(false, Some("SANITY_WEBHOOK_SECRET is not configured"))
    else
      var s := secret.value;
      var headerSecret := if header.Some? then Trim(header.value) else "";
      var querySecret := if query.Some? then Trim(query.value) else "";
      var ok := BearerToken(authorization) == s || headerSecret == s || querySecret == s;
      Auth(ok, if ok then None else Some("Invalid webhook secret"))
  }

  /** A configured secret with surrounding whitespace matches no request: every channel is trimmed. */
  lemma UntrimmedSecretNeverMatches(secret: string, authorization: Option<string>, header: Option<string>, query: Option<string>)
    requires secret != "" && Trim(secret) != secret
    ensures !IsAuthorized(Some(secret), authorization, header, query).ok
  {
    if authorization.Some? && StartsWith(authorization.value, "Bearer ") {
      TrimIdempotent(authorization.value[7..]);
    }
    if header.Some? {
      TrimIdempotent(header.value);
    }
    if query.Some? {
      TrimIdempotent(query.value);
    }
  }

  /** `payload.a?.b`: a property of a nested object, undefined when the outer one is absent. */
  function Nested(payload: Value, outer: string, inner: string): Option<Value> {
    match Get(payload, outer)
    case None => None
    case Some(o) => Get(o, inner)
  }

  /**
   * `payload.paths ?? []` iterated by `for...of` and normalised: absent or null gives no path,
   * a string is iterated character by character, an array is iterated element by element;
   * anything else, or an element that is not a string (it has no `trim`), throws (None).
   */
  function PathCandidates(v: Option<Value>, parse: UrlParser): (r: Option<seq<string>>)
    ensures r.Some? ==> forall i :: 0 <= i < |r.value| ==> StartsWith(r.value[i], "/")
    ensures v.Some? && v.value.Arr? ==> (r.Some? <==> AllStrings(v.value.items))
  {
    if v.None? || v.value == Null then Some([])
    else match v.value
      case Arr(items) => if AllStrings(items) then Some(NormalizeAll(items, parse)) else None
      case Str(s) => Some(NormalizeAll(Chars(s), parse))
      case _ => None
  }

  /** The one-character strings `for...of` yields from a string. */
  function Chars(s: string): (r: seq<Value>)
    ensures |r| == |s| && AllStrings(r)
    ensures forall i :: 0 <= i < |s| ==> r[i] == Str([s[i]])
  {
    if s == [] then [] else [Str([s[0]])] + Chars(s[1..])
  }

  predicate AllStrings(items: seq<Value>) {
    forall i :: 0 <= i < |items| ==> items[i].Str?
  }

  /** The normalised, non-null paths of a list of strings, in order. */
  function NormalizeAll(items: seq<Value>, parse: UrlParser): (r: seq<string>)
    requires AllStrings(items)
    ensures forall i :: 0 <= i < |r| ==> StartsWith(r[i], "/")

    decreases |items|
  {
    if items == [] then []
    else
      var rest := NormalizeAll(items[1..], parse);
      match NormalizePath(items[0].s, parse)
      case None => rest
      case Some(p) => [p] + rest
  }

  /** The payload fields that decide the revalidation. */
  datatype Change = Change(contentType: Value, slug: Option<string>, previousSlug: Option<string>, paths: seq<string>)

  /** Reads a payload; `None` where reading it throws (a `null` payload, or `paths` of the wrong kind). */
  function ReadChange(payload: Value, parse: UrlParser): (c: Option<Change>)
    ensures payload == Null ==> c.None?
  {
    if payload == Null then None
    else
      var contentType := Or(Or(Get(payload, "_type"), Nested(payload, "document", "_type")), Some(Str(""))).value;
      var slug := OrSlug(ExtractSlug(Get(payload, "slug")), ExtractSlug(Nested(payload, "document", "slug")));
      var previous := OrSlug(ExtractSlug(Get(payload, "previousSlug")), ExtractSlug(Nested(payload, "before", "slug")));
      match PathCandidates(Get(payload, "paths"), parse)
      case None => None
      case Some(paths) => Some(Change(contentType, slug, previous, paths))
  }

  /** A change concerns the blog when it is a post or names a slug or a previous slug. */
  predicate BlogChange(c: Change) {
    c.contentType == Str("post") || c.slug.Some? || c.previousSlug.Some?
  }

  /** The paths added to the `Set`, in the order they are added. */
  function Insertions(c: Change): seq<string> {
    ["/", "/sitemap.xml"] + c.paths
    + (if BlogChange(c) then
         ["/blog", "/rss.xml", "/feed.xml"]
         + (if c.slug.Some? then ["/blog/" + c.slug.value] else [])
         + (if c.previousSlug.Some? then ["/blog/" + c.previousSlug.value] else [])
       else [])
  }

  /**
   * Filling the `Set` and copying it into `revalidated`: each distinct path once, in order of
   * first insertion. (`revalidatePath` is the call made for each.)
   */
  method Revalidate(insertions: seq<string>) returns (revalidated: seq<string>)
    ensures revalidated == Counting.Dedup(insertions)
  {
    var order: seq<string> := [];
    var members: set<string> := {};
    var i := 0;
    while i < |insertions|
      invariant 0 <= i <= |insertions|
      invariant order == Counting.Dedup(insertions[..i])
      invariant forall x :: x in members <==> x in insertions[..i]
    {
      var p := insertions[i];
      assert insertions[..i + 1] == insertions[..i] + [p];
      Counting.DedupSnoc(insertions[..i], p);
      if p !in members {
        order := order + [p];
        members := members + {p};
      }
      i := i + 1;
    }
    assert insertions[..|insertions|] == insertions;
    revalidated := [];
    var j := 0;
    while j < |order|
      invariant 0 <= j <= |order|
      invariant revalidated == order[..j]
    {
      revalidated := revalidated + [order[j]];
      j := j + 1;
    }
    assert order[..|order|] == order;
  }

  /** The revalidated list starts with "/" and "/sitemap.xml" and has no duplicates. */
  lemma RevalidatedShape(c: Change)
    ensures var r := Counting.Dedup(Insertions(c));
            |r| >= 2 && r[0] == "/" && r[1] == "/sitemap.xml" && Counting.Distinct(r)
  {
    var ins := Insertions(c);
    var head := ["/", "/sitemap.xml"];
    Counting.DedupOfDistinct(head);
    Counting.DedupExtends(head, ins[2..]);
    assert head + ins[2..] == ins;
  }

  /**
   * "/blog", "/rss.xml" and "/feed.xml" are revalidated exactly when the change concerns the
   * blog or lists them among its paths.
   */
  lemma BlogPagesRevalidated(c: Change, p: string)
    requires p == "/blog" || p == "/rss.xml" || p == "/feed.xml"
    ensures p in Counting.Dedup(Insertions(c)) <==> BlogChange(c) || p in c.paths
  {
    var ins := Insertions(c);
    Counting.DedupMembers(ins, p);
    var extra := if BlogChange(c) then
         ["/blog", "/rss.xml", "/feed.xml"]
         + (if c.slug.Some? then ["/blog/" + c.slug.value] else [])
         + (if c.previousSlug.Some? then ["/blog/" + c.previousSlug.value] else [])
       else [];
    var head := ["/", "/sitemap.xml"];
    assert ins == head + c.paths + extra;
    assert p !in head;
    assert p in ins <==> p in c.paths || p in extra;
    if BlogChange(c) {
      assert p in ["/blog", "/rss.xml", "/feed.xml"];
      assert p in extra;
    }
  }

  /** `${SITE_URL}${path === "/" ? "" : path}`. */
  function AbsoluteUrl(site: string, path: string): string {
    site + (if path == "/" then "" else path)
  }

  /** `revalidated.filter(isIndexablePath).map(toUrl)`. */
  function IndexNowUrls(site: string, revalidated: seq<string>): (urls: seq<string>)
    ensures |urls| <= |revalidated|
    ensures forall u :: u in urls <==> exists p :: p in revalidated && IsIndexablePath(p) && u == AbsoluteUrl(site, p)
    decreases |revalidated|
  {
    if revalidated == [] then []
    else
      var rest := IndexNowUrls(site, revalidated[1..]);
      var p := revalidated[0];
      assert forall q :: q in revalidated <==> q == p || q in revalidated[1..];
      if IsIndexablePath(p) then [AbsoluteUrl(site, p)] + rest else rest
  }

  /** The JSON body IndexNow receives. */
  datatype IndexNowRequest = IndexNowRequest(host: string, key: string, keyLocation: string, urlList: seq<string>)

  /** What IndexNow answered, or the error `fetch` threw. */
  datatype IndexNowAnswer = Answered(status: int, statusText: string) | Threw(error: string)

  /** The `indexNow` part of the reply. */
  datatype IndexNowReport =
    | NotAttempted(reason: string)
    | Attempted(ok: bool, status: int, statusText: string)

  /** The outcome of `submitIndexNow`: the report and the request sent, or `None` where it throws. */
  datatype Submission = Submission(report: IndexNowReport, sent: Option<IndexNowRequest>)

  /**
   * `submitIndexNow`: without an API key or without URLs nothing is sent; otherwise one request
   * carries the host of the site URL, the key, the key location (configured, or the key file on
   * the site) and the URL list. `None` where `new URL(SITE_URL)` or `fetch` throws.
   */
  function SubmitIndexNow(urls: seq<string>, apiKey: Option<string>, keyLocation: Option<string>, site: string,
                          parse: UrlParser, answer: IndexNowAnswer): (r: Option<Submission>)
    ensures (apiKey.None? || apiKey.value == "") ==> r == Some(Submission(NotAttempted("INDEXNOW_API_KEY is not configured"), None))
    ensures apiKey.Some? && apiKey.value != "" && urls == [] ==> r == Some(Submission(NotAttempted("No eligible URLs"), None))
    ensures r.Some? && r.value.sent.Some? ==>
      var req := r.value.sent.value;
      req.urlList == urls && req.key == apiKey.value && parse(site).Some? && req.host == parse(site).value.hostname &&
      req.keyLocation == (if keyLocation.Some? && keyLocation.value != "" then keyLocation.value
                          else site + "/" + apiKey.value + ".txt")
    ensures r.Some? ==> (r.value.sent.Some? <==> r.value.report.Attempted?)
  {
    if apiKey.None? || apiKey.value == "" then Some(Submission(NotAttempted("INDEXNOW_API_KEY is not configured"), None))
    else if urls == [] then Some(Submission(NotAttempted("No eligible URLs"), None))
    else match parse(site)
      case None => None
      case Some(u) =>
        var location := if keyLocation.Some? && keyLocation.value != "" then keyLocation.value
                        else site + "/" + apiKey.value + ".txt";
        var req := IndexNowRequest(u.hostname, apiKey.value, location, urls);
        match answer
        case Threw(_) => None
        case Answered(status, text) => Some(Submission(Attempted(200 <= status <= 299, status, text), Some(req)))
  }

  function ReportValue(r: IndexNowReport): Value {
    match r
    case NotAttempted(reason) => Obj(map["attempted" := Bool(false), "reason" := Str(reason)])
    case Attempted(ok, status, text) =>
      Obj(map["attempted" := Bool(true), "ok" := Bool(ok), "status" := Num(status), "statusText" := Str(text)])
  }

  /** What the handler answers: a JSON reply, or an exception that escapes it. */
  datatype Reply = JsonReply(status: int, body: Value) | Unhandled

  /** The request as the handler sees it. */
  datatype Request = Request(
    authorization: Option<string>,
    webhookSecretHeader: Option<string>,
    secretQuery: Option<string>,
    body: Result<Value, string>)

  /** The configuration and the effects the handler depends on. */
  datatype Environment = Environment(
    secret: Option<string>,
    site: string,
    apiKey: Option<string>,
    keyLocation: Option<string>,
    parse: UrlParser,
    answer: IndexNowAnswer)

  /** The 200 reply: `type || null`, `operation || transition || null`, the paths and the IndexNow report. */
  function SuccessBody(payload: Value, contentType: Value, revalidated: seq<string>, report: IndexNowReport): (r: Value)
    ensures r.Obj? && r.fields.Keys == {"ok", "type", "operation", "revalidated", "indexNow"}
    ensures r.fields["ok"] == Bool(true) && r.fields["indexNow"] == ReportValue(report)
    ensures r.fields["revalidated"].Arr? && |r.fields["revalidated"].items| == |revalidated|
    ensures forall i :: 0 <= i < |revalidated| ==> r.fields["revalidated"].items[i] == Str(revalidated[i])
    ensures Truthy(r.fields["type"]) || r.fields["type"] == Null
  {
    var operation := Or(Get(payload, "operation"), Get(payload, "transition"));
    Obj(map[
      "ok" := Bool(true),
      "type" := if Truthy(contentType) then contentType else Null,
      "operation" := if Present(operation) then operation.value else Null,
      "revalidated" := Arr(seq(|revalidated|, i requires 0 <= i < |revalidated| => Str(revalidated[i]))),
      "indexNow" := ReportValue(report)])
  }

  /** The 401 and 400 replies. */
  function Rejection(status: int, error: string): Reply {
    JsonReply(status, Obj(map["ok" := Bool(false), "error" := Str(error)]))
  }

  /**
   * `POST /api/seo/webhook`. An unauthorised request gets 401 before its body is read, and
   * a body that is not JSON gets 400; otherwise the affected paths are revalidated, in order
   * of first insertion, and the indexable ones submitted.
   */
  method Post(req: Request, env: Environment) returns (reply: Reply, revalidated: seq<string>)
    ensures var auth := IsAuthorized(env.secret, req.authorization, req.webhookSecretHeader, req.secretQuery);
            !auth.ok ==> reply == Rejection(401, auth.reason.value) && revalidated == []
    ensures IsAuthorized(env.secret, req.authorization, req.webhookSecretHeader, req.secretQuery).ok && req.body.Err? ==>
      reply == Rejection(400, "Invalid JSON payload") && revalidated == []
    ensures IsAuthorized(env.secret, req.authorization, req.webhookSecretHeader, req.secretQuery).ok && req.body.Ok? ==>
      var change := ReadChange(req.body.value, env.parse);
      (change.None? ==> reply == Unhandled && revalidated == []) &&
      (change.Some? ==>
         revalidated == Counting.Dedup(Insertions(change.value)) &&
         var s := SubmitIndexNow(IndexNowUrls(env.site, revalidated), env.apiKey, env.keyLocation, env.site, env.parse, env.answer);
         reply == if s.None? then Unhandled
                  else JsonReply(200, SuccessBody(req.body.value, change.value.contentType, revalidated, s.value.report)))
  {
    revalidated := [];
    var auth := IsAuthorized(env.secret, req.authorization, req.webhookSecretHeader, req.secretQuery);
    if !auth.ok {
      reply := Rejection(401, auth.reason.value);
      return;
    }
    if req.body.Err? {
      reply := Rejection(400, "Invalid JSON payload");
      return;
    }
    var payload := req.body.value;
    var change := ReadChange(payload, env.parse);
    if change.None? {
      reply := Unhandled;
      return;
    }
    revalidated := Revalidate(Insertions(change.value));
    var urls := IndexNowUrls(env.site, revalidated);
    var submission := SubmitIndexNow(urls, env.apiKey, env.keyLocation, env.site, env.parse, env.answer);
    if submission.None? {
      reply := Unhandled;
      return;
    }
    reply := JsonReply(200, SuccessBody(payload, change.value.contentType, revalidated, submission.value.report));
  }

  /** A post published with a plain slug is submitted as the home page, the blog index and the post. */
  lemma PostSlugSubmission(site: string, slug: string)
    requires slug != [] && Trim(slug) == slug && !EndsWith("/blog/" + slug, ".xml")
    ensures var c := Change(Str("post"), Some(slug), None, []);
            IndexNowUrls(site, Counting.Dedup(Insertions(c))) == [site, site + "/blog", site + "/blog/" + slug]
  {
    var post := "/blog/" + slug;
    var ins := ["/", "/sitemap.xml", "/blog", "/rss.xml", "/feed.xml", post];
    PostInsertions(slug);
    Counting.DedupOfDistinct(ins);
    assert post[..6] == "/blog/";
    PostUrls(site, post);
    assert site + post == site + "/blog/" + slug;
  }

  lemma PostInsertions(slug: string)
    requires slug != []
    ensures var ins := ["/", "/sitemap.xml", "/blog", "/rss.xml", "/feed.xml", "/blog/" + slug];
            Insertions(Change(Str("post"), Some(slug), None, [])) == ins && Counting.Distinct(ins)
  {
    var post := "/blog/" + slug;
    assert post[1] == 'b' && post[5] == '/' && |post| > 6;
  }

  lemma PostUrls(site: string, post: string)
    requires StartsWith(post, "/blog/") && !EndsWith(post, ".xml")
    ensures IndexNowUrls(site, ["/", "/sitemap.xml", "/blog", "/rss.xml", "/feed.xml", post])
            == [site, site + "/blog", site + post]
  {
    assert IsIndexablePath(post) by {
      assert post[..4] == "/blo";
      assert |post| < 7 || post[..7] != "/studio";
    }
    FixedPathsIndexable();
    var ins := ["/", "/sitemap.xml", "/blog", "/rss.xml", "/feed.xml", post];
    IndexNowOfSix(site, ins);
    assert AbsoluteUrl(site, ins[0]) == site;
  }

  /** Which of the fixed revalidated paths IndexNow is told about. */
  lemma FixedPathsIndexable()
    ensures IsIndexablePath("/") && IsIndexablePath("/blog")
    ensures !IsIndexablePath("/sitemap.xml") && !IsIndexablePath("/rss.xml") && !IsIndexablePath("/feed.xml")
  {
    var blog := "/blog";
    assert blog[1] == 'b' && blog[4] == 'g';
    assert !StartsWith(blog, "/api") && !StartsWith(blog, "/ops") && !StartsWith(blog, "/studio");
    assert !StartsWith(blog, "/_next") && !EndsWith(blog, ".xml");
    assert "/sitemap.xml"[8..] == ".xml" && "/rss.xml"[4..] == ".xml" && "/feed.xml"[5..] == ".xml";
  }

  /** Six revalidated paths of which the first, third and sixth are indexable give those three URLs. */
  lemma IndexNowOfSix(site: string, s: seq<string>)
    requires |s| == 6
    requires IsIndexablePath(s[0]) && !IsIndexablePath(s[1]) && IsIndexablePath(s[2])
    requires !IsIndexablePath(s[3]) && !IsIndexablePath(s[4]) && IsIndexablePath(s[5])
    ensures IndexNowUrls(site, s) == [AbsoluteUrl(site, s[0]), AbsoluteUrl(site, s[2]), AbsoluteUrl(site, s[5])]
  {
    assert s[5..][1..] == [];
    assert IndexNowUrls(site, s[5..]) == [AbsoluteUrl(site, s[5])];
    assert s[4..][1..] == s[5..];
    assert IndexNowUrls(site, s[4..]) == IndexNowUrls(site, s[5..]);
    assert s[3..][1..] == s[4..];
    assert IndexNowUrls(site, s[3..]) == IndexNowUrls(site, s[4..]);
    assert s[2..][1..] == s[3..];
    assert IndexNowUrls(site, s[2..]) == [AbsoluteUrl(site, s[2])] + IndexNowUrls(site, s[3..]);
    assert s[1..][1..] == s[2..];
    assert IndexNowUrls(site, s[1..]) == IndexNowUrls(site, s[2..]);
  }
}
