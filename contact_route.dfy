/**
 * `POST /api/contact`: the public contact form. It checks the required fields, then mails the
 * board a plain-text summary. The mail service is replaced by its answer.
 */
module ContactRoute {
  import opened Common
  import opened Json
  import Text

  const Sender := "IISF Website <no-reply@intersectionalsafety.org>"
  const Board := "board@intersectionalsafety.org"
  const SubjectPrefix := "[IISF Contact] "

  datatype Reply = JsonReply(status: int, body: Value)

  /** The mail handed to the mail service. */
  datatype Mail = Mail(from: string, to: string, subject: string, text: string)

  /** What sending does: `{data, error}`, or a thrown error. */
  datatype SendAnswer = SendResult(data: Option<Value>, error: Option<Value>) | SendThrew

  datatype Outcome = Outcome(reply: Reply, sent: Option<Mail>)

  const Missing := JsonReply(400, ErrorObject("Missing required fields"))
  const SendFailed := JsonReply(500, ErrorObject("Failed to send message"))

  /** The form fields, read from the parsed body (`None` for an absent one). */
  datatype Form = Form(name: Option<Value>, organization: Option<Value>, subject: Option<Value>, message: Option<Value>)

  function FormOf(body: Value): (f: Form)
    ensures f.name == Get(body, "name") && f.organization == Get(body, "organization")
    ensures f.subject == Get(body, "subject") && f.message == Get(body, "message")
  {
    Form(Get(body, "name"), Get(body, "organization"), Get(body, "subject"), Get(body, "message"))
  }

  predicate Complete(f: Form) {
    Present(f.name) && Present(f.subject) && Present(f.message)
  }

  /** The entries of the mail text before `.filter(Boolean)`. */
  function Entries(f: Form): seq<Value> {
    [ Str("Name: " + Interpolate(f.name)),
      Str(if Present(f.organization) then "Organization: " + Interpolate(f.organization) else ""),
      Str(""),
      Str("Message:"),
      f.message.GetOr(Null) ]
  }

  /** `.filter(Boolean)` on values. */
  function Truthful(vs: seq<Value>): (r: seq<Value>)
    ensures |r| <= |vs| && forall i :: 0 <= i < |r| ==> Truthy(r[i])
    decreases |vs|
  {
    if vs == [] then []
    else
      Keep(vs[0]) + Truthful(vs[1..])
  }

  /** A value alone when it is truthy, else nothing. */
  function Keep(v: Value): seq<Value> {
    if Truthy(v) then [v] else []
  }

  /** The lines `join` renders. */
  function Rendered(vs: seq<Value>): (r: seq<string>)
    ensures |r| == |vs| && forall i :: 0 <= i < |vs| ==> r[i] == ToJsString(vs[i])
  {
    seq(|vs|, i requires 0 <= i < |vs| => ToJsString(vs[i]))
  }

  /** The mail text: the entries that are truthy, one per line. */
  function MailText(f: Form): (t: string)
    requires Complete(f)
    ensures !Present(f.organization) ==>
      t == "Name: " + Interpolate(f.name) + "\nMessage:\n" + ToJsString(f.message.value)
    ensures Present(f.organization) ==>
      t == "Name: " + Interpolate(f.name) + "\nOrganization: " + Interpolate(f.organization)
           + "\nMessage:\n" + ToJsString(f.message.value)
  {
    KeptEntries(f);
    var rs := Rendered(Truthful(Entries(f)));
    var m := ToJsString(f.message.value);
    if Present(f.organization) then
      assert rs == ["Name: " + Interpolate(f.name), "Organization: " + Interpolate(f.organization), "Message:", m];
      JoinWithOrganization(Interpolate(f.name), Interpolate(f.organization), m);
      Text.Join(rs, "\n")
    else
      assert rs == ["Name: " + Interpolate(f.name), "Message:", m];
      JoinWithoutOrganization(Interpolate(f.name), m);
      Text.Join(rs, "\n")
  }

  lemma JoinWithOrganization(n: string, o: string, m: string)
    ensures Text.Join(["Name: " + n, "Organization: " + o, "Message:", m], "\n")
         == "Name: " + n + "\nOrganization: " + o + "\nMessage:\n" + m
  {
    var tail := ["Message:", m];
    assert tail[1..] == [m];
    assert Text.Join(tail, "\n") == "Message:" + "\n" + m;
    var mid := ["Organization: " + o] + tail;
    assert mid[1..] == tail;
    assert Text.Join(mid, "\n") == "Organization: " + o + "\n" + ("Message:" + "\n" + m);
    var xs := ["Name: " + n] + mid;
    assert xs[1..] == mid;
    assert xs == ["Name: " + n, "Organization: " + o, "Message:", m];
    assert "\n" + "Organization: " == "\nOrganization: ";
    assert "\n" + "Message:" + "\n" == "\nMessage:\n";
  }

  lemma JoinWithoutOrganization(n: string, m: string)
    ensures Text.Join(["Name: " + n, "Message:", m], "\n") == "Name: " + n + "\nMessage:\n" + m
  {
    var tail := ["Message:", m];
    assert tail[1..] == [m];
    assert Text.Join(tail, "\n") == "Message:" + "\n" + m;
    var xs := ["Name: " + n] + tail;
    assert xs[1..] == tail;
    assert xs == ["Name: " + n, "Message:", m];
    assert "\n" + "Message:" + "\n" == "\nMessage:\n";
  }

  /** The entries that survive the filter: the blank spacer never does, the organization line when given. */
  lemma KeptEntries(f: Form)
    requires Complete(f)
    ensures var n := Str("Name: " + Interpolate(f.name));
            var o := Str("Organization: " + Interpolate(f.organization));
            Truthful(Entries(f)) == if Present(f.organization) then [n, o, Str("Message:"), f.message.value]
                                    else [n, Str("Message:"), f.message.value]
  {
    var n := Str("Name: " + Interpolate(f.name));
    assert |"Name: " + Interpolate(f.name)| > 0;
    var o := Str(if Present(f.organization) then "Organization: " + Interpolate(f.organization) else "");
    var m := f.message.GetOr(Null);
    assert Truthy(n) && !Truthy(Str("")) && Truthy(Str("Message:")) && Truthy(m);
    assert Truthy(o) <==> Present(f.organization);
    var es := Entries(f);
    TruthfulFive(es);
  }

  /** The filter on five values, one at a time. */
  lemma TruthfulFive(vs: seq<Value>)
    requires |vs| == 5
    ensures Truthful(vs) == Keep(vs[0]) + (Keep(vs[1]) + (Keep(vs[2]) + (Keep(vs[3]) + Keep(vs[4]))))
  {
    TruthfulFrom(vs, 4);
    assert vs[5..] == [];
    TruthfulFrom(vs, 3);
    TruthfulFrom(vs, 2);
    TruthfulFrom(vs, 1);
    TruthfulFrom(vs, 0);
    assert vs[0..] == vs;
  }

  /** One step of the filter, on a suffix. */
  lemma TruthfulFrom(vs: seq<Value>, i: nat)
    requires i < |vs|
    ensures Truthful(vs[i..]) == Keep(vs[i]) + Truthful(vs[i + 1..])
  {
    assert vs[i..][1..] == vs[i + 1..];
  }

  function MailOf(f: Form): (m: Mail)
    requires Complete(f)
    ensures m.to == Board && m.subject == SubjectPrefix + Interpolate(f.subject) && m.text == MailText(f)
  {
    Mail(Sender, Board, SubjectPrefix + Interpolate(f.subject), MailText(f))
  }

  /** `POST`, given the parsed body (or the parse error) and the mail service's answer. */
  function Post(body: Result<Value, string>, answer: SendAnswer): (r: Outcome)
    ensures body.Err? || body.value == Null ==> r == Outcome(SendFailed, None)
    ensures body.Ok? && body.value != Null && !Complete(FormOf(body.value)) ==> r == Outcome(Missing, None)
    ensures r.sent.Some? <==> body.Ok? && body.value != Null && Complete(FormOf(body.value))
    ensures r.sent.Some? ==> r.sent.value == MailOf(FormOf(body.value))
    ensures r.sent.Some? && (answer.SendThrew? || Present(answer.error)) ==> r.reply == SendFailed
    ensures r.reply.status == 200 <==> r.sent.Some? && answer.SendResult? && !Present(answer.error)
  {
    if body.Err? || body.value == Null then Outcome(SendFailed, None)
    else
      var f := FormOf(body.value);
      if !Complete(f) then Outcome(Missing, None)
      else
        var mail := MailOf(f);
        match answer
        case SendThrew => Outcome(SendFailed, Some(mail))
        case SendResult(data, error) =>
          if Present(error) then Outcome(SendFailed, Some(mail))
          else
            var id := if data.Some? && data.value != Null then Get(data.value, "id") else None;
            Outcome(JsonReply(200, Obj(WithOptional(map["ok" := Bool(true)], "id", id))), Some(mail))
  }

  /** The organization line appears exactly when an organization is given; the blank spacer never. */
  lemma OrganizationOptional(name: string, org: Option<string>, subject: string, message: string)
    requires name != "" && subject != "" && message != ""
    ensures var f := Form(Some(Str(name)), if org.Some? then Some(Str(org.value)) else None,
                          Some(Str(subject)), Some(Str(message)));
            MailText(f) == "Name: " + name
              + (if org.Some? && org.value != "" then "\nOrganization: " + org.value else "")
              + "\nMessage:\n" + message
  {
  }

  /** Any one of the required fields missing or falsy stops the request before anything is sent. */
  lemma RequiredFields(fields: map<string, Value>, answer: SendAnswer)
    requires "name" !in fields || !Truthy(fields["name"]) || "message" !in fields || !Truthy(fields["message"])
    ensures Post(Ok(Obj(fields)), answer) == Outcome(Missing, None)
  {
  }
}
