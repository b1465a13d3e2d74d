/**
 * The `indexnow_submit` tool: it checks that every URL belongs to the site, then posts the
 * list to the IndexNow endpoint and reports the outcome. The HTTP call is replaced by its answer.
 */
module IndexNowTool {
  import opened Common
  import opened Text
  import Numerals

  const SiteHost := "www.intersectionalsafety.org"
  const KeyLocation := "https://www.intersectionalsafety.org/61d089df94964555b8d4a53ea75d6c7e.txt"
  /** The substring every submitted URL must contain. */
  const SiteDomain := "intersectionalsafety.org"
  const Endpoint := "https://api.indexnow.org/IndexNow"
  const MissingKey := "INDEXNOW_API_KEY not configured. Add it to .env.local."

  /** The JSON body posted to the endpoint. */
  datatype Payload = Payload(host: string, key: string, keyLocation: string, urlList: seq<string>)

  /** What the request does: a response, or a thrown error with its message. */
  datatype Answer = Responded(ok: bool, status: int, statusText: string) | Threw(message: string)

  /** The tool's result object. */
  datatype Report = Failed(error: string) | Submitted(submitted: nat, urls: seq<string>, message: string)

  /** The result, and the payload posted (`None` when no request is made). */
  datatype Submission = Submission(report: Report, sent: Option<Payload>)

  /** The URLs that do not contain the site's domain, in input order. */
  function InvalidUrls(urls: seq<string>): (bad: seq<string>)
    ensures forall u :: u in bad <==> u in urls && !Contains(u, SiteDomain)
    ensures |bad| <= |urls|
    decreases |urls|
  {
    if urls == [] then []
    else
      var n := |urls| - 1;
      var init := InvalidUrls(urls[..n]);
      assert urls == urls[..n] + [urls[n]];
      if Contains(urls[n], SiteDomain) then init else init + [urls[n]]
  }

  /** A single URL is kept exactly when it lacks the domain. */
  lemma InvalidSingle(u: string)
    ensures InvalidUrls([u]) == if Contains(u, SiteDomain) then [] else [u]
  {
    assert [u][..0] == [];
  }

  /**
   * Filtering a concatenation filters each part and keeps them in order, so the
   * result keeps the input order and its repetitions.
   */
  lemma {:induction false} InvalidUrlsAppend(a: seq<string>, b: seq<string>)
    ensures InvalidUrls(a + b) == InvalidUrls(a) + InvalidUrls(b)
    decreases |b|
  {
    if b == [] {
      assert a + b == a;
    } else {
      var n := |b| - 1;
      assert (a + b)[..|a + b| - 1] == a + b[..n];
      assert (a + b)[|a + b| - 1] == b[n];
      InvalidUrlsAppend(a, b[..n]);
    }
  }

  /** `statusMessages[status] || statusText`: the table's message for four statuses. */
  function StatusMessage(status: int, statusText: string): (m: string)
    ensures status !in {400, 403, 422, 429} ==> m == statusText
    ensures status in {400, 403, 422, 429} ==> m != ""
  {
    if status == 400 then "Bad request \U{2014} check URL format"
    else if status == 403 then "Forbidden \U{2014} API key not valid or key file not found at site root"
    else if status == 422 then "URLs don't belong to the host or key mismatch"
    else if status == 429 then "Too many requests \U{2014} slow down submissions"
    else statusText
  }

  /** The four mapped statuses never fall back to the status text, whatever it is. */
  lemma MappedStatusesIgnoreText(status: int, t1: string, t2: string)
    requires status in {400, 403, 422, 429}
    ensures StatusMessage(status, t1) == StatusMessage(status, t2) != ""
  {
  }

  const SubmittedSuffix := " URL(s) submitted to IndexNow (Bing, Yandex, and others). Indexing is not instant \U{2014} search engines will prioritize crawling these URLs."
  const ApiErrorPrefix := "IndexNow API error "
  const ThrewPrefix := "IndexNow submission failed: "

  function SuccessMessage(n: nat): string {
    Numerals.NatToString(n) + SubmittedSuffix
  }

  /** Every URL contains the site's domain. */
  predicate OnSite(urls: seq<string>) {
    forall u :: u in urls ==> Contains(u, SiteDomain)
  }

  function InvalidError(bad: seq<string>): string {
    "All URLs must be on intersectionalsafety.org. Invalid: " + Join(bad, ", ")
  }

  /** The checks made before any request: the key, then the domain of every URL. */
  function Refusal(urls: seq<string>, apiKey: Option<string>): (e: Option<string>)
    ensures apiKey.None? || apiKey.value == "" ==> e == Some(MissingKey)
    ensures apiKey.Some? && apiKey.value != "" && InvalidUrls(urls) != [] ==> e == Some(InvalidError(InvalidUrls(urls)))
    ensures e.None? <==> apiKey.Some? && apiKey.value != "" && OnSite(urls)
  {
    if apiKey.None? || apiKey.value == "" then Some(MissingKey)
    else
      var bad := InvalidUrls(urls);
      if bad != [] then
        assert bad[0] in urls && !Contains(bad[0], SiteDomain);
        Some(InvalidError(bad))
      else
        None
  }

  /** The report made from the endpoint's answer. */
  function Outcome(urls: seq<string>, answer: Answer): (r: Report)
    ensures r.Submitted? <==> answer.Responded? && answer.ok
    ensures r.Submitted? ==> r.submitted == |urls| && r.urls == urls
    ensures answer.Responded? && !answer.ok ==>
      r == Failed(ApiErrorPrefix + Numerals.IntToString(answer.status) + ": " + StatusMessage(answer.status, answer.statusText))
    ensures answer.Threw? ==> r == Failed(ThrewPrefix + answer.message)
  {
    match answer
    case Responded(ok, status, statusText) =>
      if ok then Submitted(|urls|, urls, SuccessMessage(|urls|))
      else Failed(ApiErrorPrefix + Numerals.IntToString(status) + ": " + StatusMessage(status, statusText))
    case Threw(m) => Failed(ThrewPrefix + m)
  }

  /** `indexNowSubmitTool.execute`, given the key variable and the endpoint's answer. */
  function Submit(urls: seq<string>, apiKey: Option<string>, answer: Answer): (r: Submission)
    ensures Refusal(urls, apiKey).Some? ==> r == Submission(Failed(Refusal(urls, apiKey).value), None)
    ensures r.sent.Some? <==> apiKey.Some? && apiKey.value != "" && OnSite(urls)
    ensures r.sent.Some? ==> r.sent.value == Payload(SiteHost, apiKey.value, KeyLocation, urls) && r.report == Outcome(urls, answer)
  {
    match Refusal(urls, apiKey)
    case Some(e) => Submission(Failed(e), None)
    case None => Submission(Outcome(urls, answer), Some(Payload(SiteHost, apiKey.value, KeyLocation, urls)))
  }

  /** One off-site URL is enough to refuse the whole list, and it is named in the error. */
  lemma OffSiteUrlNamed(urls: seq<string>, key: string, answer: Answer, u: string)
    requires key != "" && u in urls && !Contains(u, SiteDomain)
    ensures var r := Submit(urls, Some(key), answer);
            r.sent.None? && r.report.Failed? && Contains(r.report.error, u)
  {
    var bad := InvalidUrls(urls);
    assert u in bad;
    JoinContains(bad, ", ", u);
    ContainsInRight("All URLs must be on intersectionalsafety.org. Invalid: ", Join(bad, ", "), u);
    assert Submit(urls, Some(key), answer).report.error == InvalidError(bad);
  }

  /** Every part of a joined list occurs in the joined string. */
  lemma {:induction false} JoinContains(parts: seq<string>, sep: string, p: string)
    requires p in parts
    ensures Contains(Join(parts, sep), p)
    decreases |parts|
  {
    if |parts| == 1 {
      ContainsSplice("", p, "");
      assert "" + p + "" == p;
    } else if parts[0] == p {
      ContainsSplice("", p, sep + Join(parts[1..], sep));
      assert "" + p + (sep + Join(parts[1..], sep)) == Join(parts, sep);
    } else {
      JoinContains(parts[1..], sep, p);
      ContainsInRight(parts[0] + sep, Join(parts[1..], sep), p);
      assert (parts[0] + sep) + Join(parts[1..], sep) == Join(parts, sep);
    }
  }
}
