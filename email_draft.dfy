/**
 * The `email_draft` tool: the plain-text body becomes HTML paragraphs inside a fixed frame,
 * and the message goes to the mail API from the foundation's address with the board in copy.
 * The API call is replaced by its answer.
 */
module EmailDraft {
  import opened Common
  import opened Text
  import Numerals
  import Paragraphs

  const Endpoint := "https://api.resend.com/emails"
  const Sender := "IISF <noreply@intersectionalsafety.org>"
  const Board := "board@intersectionalsafety.org"
  const MissingKey := "RESEND_API_KEY not configured. Add it to .env.local."
  const ApiErrorPrefix := "Resend API error "
  const ThrewPrefix := "Email send failed: "
  const CopiedSuffix := ". CC'd to board@intersectionalsafety.org."

  /** The frame around the paragraphs: everything before them, then everything after them. */
  const FrameStyle := "font-family: Georgia, serif; max-width: 600px; line-height: 1.6; color: #1a1a2e;"
  const RuleStyle := "border: none; border-top: 1px solid #e0e0e0; margin: 24px 0;"
  const SmallStyle := "font-size: 12px; color: #666;"
  const Address := "    International Intersectional Safety Foundation<br/>\n    1111B S Governors Ave #82502, Dover, DE 19904<br/>\n    <a href=\"https://intersectionalsafety.org\">intersectionalsafety.org</a>\n"
  const Header := "<div style=\"" + FrameStyle + "\">\n  "
  const Footer := "\n  <hr style=\"" + RuleStyle + "\" />\n  <p style=\"" + SmallStyle + "\">\n" + Address + "  </p>\n</div>"

  datatype Urgency = Low | Normal | High

  /** The tool's arguments. */
  datatype Args = Args(to: string, subject: string, body: string, urgency: Option<Urgency>)

  /** The request posted to the mail API; `priority` stands for the `X-Priority: 1` header. */
  datatype Request = Request(authorization: string, from: string, to: seq<string>, cc: seq<string>,
                             subject: string, html: string, priority: bool)

  /** What the request does: accepted (with the id its JSON names), refused, or a thrown error. */
  datatype Answer = Accepted(emailId: Option<string>) | Refused(status: int, body: string) | Threw(message: string)

  datatype Report = Failed(error: string) | Sent(emailId: Option<string>, to: string, subject: string, message: string)

  /** The result, and the request made (`None` when nothing is sent). */
  datatype Outcome = Outcome(report: Report, sent: Option<Request>)

  /** One paragraph as HTML: trimmed, its single line feeds as `<br/>`, inside `<p>`. */
  function ParagraphHtml(p: string): (h: string)
    ensures '\n' !in h
    ensures StartsWith(h, "<p>") && EndsWith(h, "</p>")
    ensures IsBlank(p) ==> h == "<p></p>"
  {
    var t := Trim(p);
    assert '\n' !in "<br/>";
    var inner := ReplaceChar(t, '\n', "<br/>");
    assert t == [] ==> inner == [];
    InParagraph(inner);
    "<p>" + inner + "</p>"
  }

  /** Text without a line feed, inside `<p>`, still has none. */
  lemma InParagraph(inner: string)
    requires '\n' !in inner
    ensures '\n' !in "<p>" + inner + "</p>"
    ensures StartsWith("<p>" + inner + "</p>", "<p>") && EndsWith("<p>" + inner + "</p>", "</p>")
    ensures inner == [] ==> "<p>" + inner + "</p>" == "<p></p>"
  {
    Enclosed("<p>", inner, "</p>");
    assert '\n' !in "<p>" && '\n' !in "</p>";
  }

  function ParagraphsHtml(ps: seq<string>): (hs: seq<string>)
    ensures |hs| == |ps| && forall i :: 0 <= i < |ps| ==> hs[i] == ParagraphHtml(ps[i])
  {
    seq(|ps|, i requires 0 <= i < |ps| => ParagraphHtml(ps[i]))
  }

  /** `htmlBody`: the paragraphs as HTML, one per line. */
  function BodyHtml(body: string): string {
    Join(ParagraphsHtml(Paragraphs.Of(body)), "\n")
  }

  /** Each line of the HTML body is one paragraph of the text, in order. */
  lemma BodyLines(body: string)
    requires Paragraphs.Of(body) != []
    ensures Split(BodyHtml(body), '\n') == ParagraphsHtml(Paragraphs.Of(body))
  {
    JoinSplit(ParagraphsHtml(Paragraphs.Of(body)), '\n');
  }

  /** A paragraph of white space only is not filtered out (the test comes before the trim). */
  lemma BlankParagraphKept(body: string)
    requires body != "" && Paragraphs.NoBreak(body) && IsBlank(body)
    ensures BodyHtml(body) == "<p></p>"
  {
    Paragraphs.SingleParagraph(body);
  }

  /** The frame opens with `<` and closes with `>`, so `trim` stops at it. */
  lemma FrameEnds()
    ensures Header != [] && Header[0] == '<' && !IsSpace(Header[0])
    ensures Footer != [] && Footer[|Footer| - 1] == '>' && !IsSpace(Footer[|Footer| - 1])
  {
  }

  /** The whole message: the frame around the body, with the template's leading line feed trimmed. */
  function Html(body: string): (h: string)
    ensures h == Header + BodyHtml(body) + Footer
  {
    var x := Header + BodyHtml(body) + Footer;
    FrameEnds();
    assert x[0] == Header[0] && x[|x| - 1] == Footer[|Footer| - 1];
    TrimLeadingBreak(x);
    Trim("\n" + x)
  }

  /** The request for `args` signed with `apiKey`. */
  function RequestOf(apiKey: string, args: Args): (r: Request)
    ensures r.to == [args.to] && r.cc == [Board] && r.subject == args.subject
    ensures r.priority <==> args.urgency == Some(High)
    ensures r.html == Html(args.body) && r.authorization == "Bearer " + apiKey
  {
    Request("Bearer " + apiKey, Sender, [args.to], [Board], args.subject, Html(args.body), args.urgency == Some(High))
  }

  function SentMessage(to: string): string {
    "Email sent to " + to + CopiedSuffix
  }

  /** The report made from the API's answer. */
  function Reply(args: Args, answer: Answer): (r: Report)
    ensures r.Sent? <==> answer.Accepted?
    ensures r.Sent? ==> r == Sent(answer.emailId, args.to, args.subject, SentMessage(args.to))
    ensures answer.Refused? ==> r == Failed(ApiErrorPrefix + Numerals.IntToString(answer.status) + ": " + answer.body)
    ensures answer.Threw? ==> r == Failed(ThrewPrefix + answer.message)
  {
    match answer
    case Accepted(id) => Sent(id, args.to, args.subject, SentMessage(args.to))
    case Refused(status, text) => Failed(ApiErrorPrefix + Numerals.IntToString(status) + ": " + text)
    case Threw(m) => Failed(ThrewPrefix + m)
  }

  /** `emailDraftTool.execute`, given the key variable and the API's answer. */
  function Draft(apiKey: Option<string>, args: Args, answer: Answer): (r: Outcome)
    ensures apiKey.None? || apiKey.value == "" ==> r == Outcome(Failed(MissingKey), None)
    ensures r.sent.Some? <==> apiKey.Some? && apiKey.value != ""
    ensures r.sent.Some? ==> r.sent.value == RequestOf(apiKey.value, args) && r.report == Reply(args, answer)
  {
    if apiKey.None? || apiKey.value == "" then Outcome(Failed(MissingKey), None)
    else Outcome(Reply(args, answer), Some(RequestOf(apiKey.value, args)))
  }

  /** The success message names the recipient, and the board is copied whatever the arguments. */
  lemma SuccessNamesRecipient(apiKey: string, args: Args, id: Option<string>)
    requires apiKey != ""
    ensures var r := Draft(Some(apiKey), args, Accepted(id));
            r.report.Sent? && Contains(r.report.message, args.to) && r.sent.value.cc == [Board]
  {
    ContainsSplice("Email sent to ", args.to, CopiedSuffix);
  }
}
