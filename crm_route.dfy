/**
 * The dashboard's CRM endpoint: `GET /api/ops/crm` lists the contacts with a pipeline summary,
 * `PATCH /api/ops/crm` updates one contact. The database is replaced by what its queries return.
 */
module CrmRoute {
  import opened Common
  import opened Json
  import opened Counting
  import CrmTools

  /** A reply: a JSON body with a status, or an exception the framework turns into a 500 page. */
  datatype Reply = JsonReply(status: int, body: Value) | Unhandled

  /** The `type`, `stage` and `search` query parameters (`None` when absent). */
  datatype Params = Params(contactType: Option<string>, stage: Option<string>, search: Option<string>)

  /** The contacts query of GET: a filter per non-empty parameter, the fixed order, at most 100 rows. */
  function ListQuery(p: Params): (q: CrmTools.Query)
    ensures q.limit == 100
    ensures CrmTools.Supplied(p.contactType) <==> CrmTools.TypeIs(p.contactType.GetOr("")) in q.filters
    ensures CrmTools.Supplied(p.stage) <==> CrmTools.StageIs(p.stage.GetOr("")) in q.filters
    ensures CrmTools.Supplied(p.search) <==> (exists t :: CrmTools.Search(t) in q.filters)
    ensures forall f :: f in q.filters ==> !f.PriorityAtMost?
  {
    var fs := (if CrmTools.Supplied(p.contactType) then [CrmTools.TypeIs(p.contactType.value)] else [])
      + (if CrmTools.Supplied(p.stage) then [CrmTools.StageIs(p.stage.value)] else [])
      + (if CrmTools.Supplied(p.search) then [CrmTools.Search(p.search.value)] else []);
    assert CrmTools.Supplied(p.search) ==> CrmTools.Search(p.search.value) in fs;
    CrmTools.Query(fs, 100)
  }

  /** A row of the second query: one contact's stage and type. */
  datatype StageType = StageType(stage: string, contactType: string)

  function StagesOf(rows: seq<StageType>): (s: seq<string>)
    ensures |s| == |rows| && forall i :: 0 <= i < |rows| ==> s[i] == rows[i].stage
  {
    seq(|rows|, i requires 0 <= i < |rows| => rows[i].stage)
  }

  function TypesOf(rows: seq<StageType>): (s: seq<string>)
    ensures |s| == |rows| && forall i :: 0 <= i < |rows| ==> s[i] == rows[i].contactType
  {
    seq(|rows|, i requires 0 <= i < |rows| => rows[i].contactType)
  }

  /** The loop that counts the contacts per stage and per type. */
  method Summaries(rows: seq<StageType>) returns (stages: map<string, nat>, types: map<string, nat>)
    ensures stages == Tally(StagesOf(rows)) && types == Tally(TypesOf(rows))
  {
    stages, types := map[], map[];
    var i := 0;
    while i < |rows|
      invariant 0 <= i <= |rows|
      invariant stages == Tally(StagesOf(rows[..i])) && types == Tally(TypesOf(rows[..i]))
    {
      var c := rows[i];
      SummaryStep(rows, i);
      TallySnoc(StagesOf(rows[..i]), c.stage);
      TallySnoc(TypesOf(rows[..i]), c.contactType);
      stages := Bump(stages, c.stage);
      types := Bump(types, c.contactType);
      i := i + 1;
    }
    assert rows[..|rows|] == rows;
  }

  lemma SummaryStep(rows: seq<StageType>, i: nat)
    requires i < |rows|
    ensures StagesOf(rows[..i + 1]) == StagesOf(rows[..i]) + [rows[i].stage]
    ensures TypesOf(rows[..i + 1]) == TypesOf(rows[..i]) + [rows[i].contactType]
  {
  }

  /** A tally as a JSON object of counts. */
  function CountsObject(m: map<string, nat>): (v: Value)
    ensures v.Obj? && v.fields.Keys == m.Keys && forall k :: k in m ==> v.fields[k] == Num(m[k])
  {
    Obj(map k | k in m :: Num(m[k]))
  }

  /** The 200 body of GET: the contacts (`[]` for null data) and the summary over `allContacts`. */
  function ListBody(contacts: Option<seq<Value>>, all: Option<seq<StageType>>): Value {
    var rows := all.GetOr([]);
    Obj(map[
      "contacts" := Arr(contacts.GetOr([])),
      "summary" := Obj(map[
        "stages" := CountsObject(Tally(StagesOf(rows))),
        "types" := CountsObject(Tally(TypesOf(rows))),
        "total" := Num(if all.Some? then |all.value| else 0)])])
  }

  /** GET, given the answer of the contacts query and the stage/type rows (`None` for null data). */
  method List(contacts: Result<Option<seq<Value>>, string>, all: Option<seq<StageType>>) returns (reply: Reply)
    ensures contacts.Err? ==> reply == JsonReply(500, ErrorObject(contacts.error))
    ensures contacts.Ok? ==> reply == JsonReply(200, ListBody(contacts.value, all))
  {
    if contacts.Err? {
      return JsonReply(500, ErrorObject(contacts.error));
    }
    var rows := if all.Some? then all.value else [];
    var stages, types := Summaries(rows);
    var body := Obj(map[
      "contacts" := Arr(if contacts.value.Some? then contacts.value.value else []),
      "summary" := Obj(map[
        "stages" := CountsObject(stages),
        "types" := CountsObject(types),
        "total" := Num(if all.Some? then |all.value| else 0)])]);
    reply := JsonReply(200, body);
  }

  /**
   * The summary of GET is consistent: every stage count and every type count is the number of
   * contacts with that stage or type, and both sets of counts add up to `total`.
   */
  lemma SummaryAddsUp(rows: seq<StageType>)
    ensures MapSum(Tally(StagesOf(rows))) == |rows| && MapSum(Tally(TypesOf(rows))) == |rows|
    ensures forall s :: s in Tally(StagesOf(rows)) ==> Tally(StagesOf(rows))[s] == Count(StagesOf(rows), s)
    ensures forall t :: t in Tally(TypesOf(rows)) ==> Tally(TypesOf(rows))[t] == Count(TypesOf(rows), t)
  {
    TallySum(StagesOf(rows));
    TallySum(TypesOf(rows));
    TallyCounts(StagesOf(rows));
    TallyCounts(TypesOf(rows));
  }

  /** What PATCH writes: the contact id and the other properties of the body. */
  datatype Update = Update(id: Value, fields: map<string, Value>)

  /**
   * `const { id, ...updates } = await request.json()`: destructuring a null body (or an
   * unparsable one) throws; any other value gives `id` (absent unless it is an object holding
   * it) and the remaining properties.
   */
  function Destructure(body: Result<Value, string>): (r: Option<(Option<Value>, map<string, Value>)>)
    ensures r.None? <==> body.Err? || body.value == Null
    ensures r.Some? ==> r.value.0 == Get(body.value, "id") && "id" !in r.value.1
    ensures r.Some? && body.value.Obj? ==> r.value.1 == body.value.fields - {"id"}
  {
    if body.Err? || body.value == Null then None
    else if body.value.Obj? then Some((Get(body.value, "id"), body.value.fields - {"id"}))
    else Some((None, map[]))
  }

  /** The update PATCH asks for, when the body names a (truthy) id. */
  function PatchUpdate(body: Result<Value, string>): (u: Option<Update>)
    ensures u.Some? ==> body.Ok? && body.value.Obj? && "id" in body.value.fields && Truthy(body.value.fields["id"])
    ensures u.Some? ==> u.value.fields == body.value.fields - {"id"} && u.value.id == body.value.fields["id"]
  {
    match Destructure(body)
    case None => None
    case Some((id, rest)) => if Present(id) then Some(Update(id.value, rest)) else None
  }

  /** PATCH, given the error of the write. The write happens exactly when `PatchUpdate` is some. */
  function Patch(body: Result<Value, string>, written: Option<string>): (r: Reply)
    ensures r == Unhandled <==> body.Err? || body.value == Null
    ensures r.JsonReply? && PatchUpdate(body).None? ==> r == JsonReply(400, ErrorObject("id required"))
    ensures PatchUpdate(body).Some? && written.Some? ==> r == JsonReply(500, ErrorObject(written.value))
    ensures r == JsonReply(200, Obj(map["ok" := Bool(true)])) <==> PatchUpdate(body).Some? && written.None?
  {
    match Destructure(body)
    case None => Unhandled
    case Some((id, _)) =>
      if !Present(id) then JsonReply(400, ErrorObject("id required"))
      else if written.Some? then JsonReply(500, ErrorObject(written.value))
      else JsonReply(200, Obj(map["ok" := Bool(true)]))
  }

  /** PATCH never writes the `id` column itself, and passes every other property through. */
  lemma PatchKeepsOtherFields(fields: map<string, Value>, k: string)
    requires "id" in fields && Truthy(fields["id"]) && k != "id"
    ensures var u := PatchUpdate(Ok(Obj(fields)));
            u.Some? && "id" !in u.value.fields && (k in fields <==> k in u.value.fields) &&
            (k in fields ==> u.value.fields[k] == fields[k])
  {
  }

  /** A body without an id, or with a falsy one (`0`, `""`, `false`, null), is refused. */
  lemma FalsyIdRefused(fields: map<string, Value>, written: Option<string>)
    requires "id" in fields ==> !Truthy(fields["id"])
    ensures Patch(Ok(Obj(fields)), written) == JsonReply(400, ErrorObject("id required"))
  {
  }
}
