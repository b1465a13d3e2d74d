/**
 * The pipeline page: a board of the CRM contacts with one column per stage, a header that counts
 * the stages in use, a drawer whose buttons move a contact to any other stage, and the alignment
 * stars. The fetches are left out; their query parameters are modelled as a list of pairs.
 */
module PipelinePage {
  import opened Common
  import opened Text
  import Json

  /** The columns, in display order. */
  const Stages := ["identified", "researched", "draft_ready", "outreach_sent", "responded",
                   "meeting_scheduled", "in_progress", "committed", "declined", "on_hold"]

  /** The fields of a contact the board uses. */
  datatype Contact = Contact(id: string, name: string, stage: string, alignmentScore: Option<int>)

  /** `contacts.filter((c) => c.stage === s)`. */
  function InStage(contacts: seq<Contact>, s: string): (r: seq<Contact>)
    ensures |r| <= |contacts|
    ensures forall k :: 0 <= k < |r| ==> r[k].stage == s
    decreases |contacts|
  {
    if contacts == [] then []
    else Matching(contacts[0], s) + InStage(contacts[1..], s)
  }

  /** The contact alone when it is of the stage, else nothing. */
  function Matching(c: Contact, s: string): seq<Contact> {
    if c.stage == s then [c] else []
  }

  /** A column holds only contacts of the list. */
  lemma {:induction false} InStageDrawn(contacts: seq<Contact>, s: string)
    ensures forall c :: c in InStage(contacts, s) ==> c in contacts
    decreases |contacts|
  {
    if contacts != [] {
      InStageDrawn(contacts[1..], s);
      assert InStage(contacts, s) == Matching(contacts[0], s) + InStage(contacts[1..], s);
    }
  }

  /** No contact of the stage is left out of its column. */
  lemma {:induction false} InStageComplete(contacts: seq<Contact>, c: Contact)
    requires c in contacts
    ensures c in InStage(contacts, c.stage)
    decreases |contacts|
  {
    if contacts[0] != c {
      InStageComplete(contacts[1..], c);
    }
  }

  /** The column keeps the order of the list it filters. */
  lemma {:induction false} InStageAppend(a: seq<Contact>, b: seq<Contact>, s: string)
    ensures InStage(a + b, s) == InStage(a, s) + InStage(b, s)
    decreases |a|
  {
    if a == [] {
      assert a + b == b;
    } else {
      assert (a + b)[1..] == a[1..] + b;
      assert InStage(a + b, s) == Matching(a[0], s) + InStage(a[1..] + b, s);
      InStageAppend(a[1..], b, s);
      assert InStage(a, s) == Matching(a[0], s) + InStage(a[1..], s);
    }
  }

  /** The `reduce` over the stages `stages`: each one mapped to its column. */
  function GroupedOver(stages: seq<string>, contacts: seq<Contact>): (g: map<string, seq<Contact>>)
    ensures forall s :: s in g <==> s in stages
    ensures forall s :: s in stages ==> g[s] == InStage(contacts, s)
    decreases |stages|
  {
    if stages == [] then map[]
    else
      var s := stages[|stages| - 1];
      GroupedOver(stages[..|stages| - 1], contacts)[s := InStage(contacts, s)]
  }

  /** `grouped`. */
  function Grouped(contacts: seq<Contact>): map<string, seq<Contact>> {
    GroupedOver(Stages, contacts)
  }

  /** A contact is in the column of its stage, and in no other one. */
  lemma InItsColumn(contacts: seq<Contact>, c: Contact, s: string)
    requires c in contacts && s in Stages
    ensures c in Grouped(contacts)[s] <==> c.stage == s
  {
    if c.stage == s {
      InStageComplete(contacts, c);
    }
  }

  /** A contact whose stage is not one of the columns is on no column. */
  lemma UnknownStageHidden(contacts: seq<Contact>, c: Contact)
    requires c.stage !in Stages
    ensures forall s :: s in Stages ==> c !in Grouped(contacts)[s]
  {
  }

  /**
   * The stages with at least one contact, in display order. `grouped[s]` is `InStage(contacts, s)`
   * for every stage (`GroupedOver`), so the column is read directly.
   */
  function Occupied(contacts: seq<Contact>, stages: seq<string>): (r: seq<string>)
    ensures |r| <= |stages|
    ensures forall k :: 0 <= k < |r| ==> r[k] in stages && |InStage(contacts, r[k])| > 0
    decreases |stages|
  {
    if stages == [] then []
    else
      var rest := Occupied(contacts, stages[1..]);
      (if |InStage(contacts, stages[0])| > 0 then [stages[0]] else []) + rest
  }

  /** The header's count: `STAGES.filter((s) => grouped[s].length > 0).length`. */
  function StageCount(contacts: seq<Contact>): (n: nat)
    ensures n <= 10
  {
    |Occupied(contacts, Stages)|
  }

  /** A stage is counted exactly when some contact is in it. */
  lemma {:induction false} OccupiedIff(contacts: seq<Contact>, stages: seq<string>, s: string)
    requires s in stages
    ensures s in Occupied(contacts, stages) <==> exists c :: c in contacts && c.stage == s
    decreases |stages|
  {
    var col := InStage(contacts, s);
    if (exists c :: c in contacts && c.stage == s) {
      var c :| c in contacts && c.stage == s;
      InStageComplete(contacts, c);
      assert c in col;
    }
    if s != stages[0] {
      OccupiedIff(contacts, stages[1..], s);
    } else if |col| > 0 {
      InStageDrawn(contacts, s);
      assert col[0] in contacts && col[0].stage == s;
    }
  }

  /** The header counts no stage exactly when no contact is on the board. */
  lemma NoStagesIff(contacts: seq<Contact>)
    ensures StageCount(contacts) == 0 <==> forall c :: c in contacts ==> c.stage !in Stages
  {
    var r := Occupied(contacts, Stages);
    if |r| == 0 {
      forall c | c in contacts
        ensures c.stage !in Stages
      {
        if c.stage in Stages {
          OccupiedIff(contacts, Stages, c.stage);
        }
      }
    } else {
      var col := InStage(contacts, r[0]);
      assert r[0] in Stages && |col| > 0;
      InStageDrawn(contacts, r[0]);
      assert col[0] in contacts && col[0].stage == r[0];
    }
  }

  /** The drawer's buttons: every stage but the contact's own, in display order. */
  function MoveTargets(current: string): (r: seq<string>)
    ensures current !in r
    ensures forall s :: s in r <==> s in Stages && s != current
  {
    OtherStages(Stages, current)
  }

  function OtherStages(stages: seq<string>, current: string): (r: seq<string>)
    ensures |r| <= |stages| && current !in r
    ensures forall s :: s in r <==> s in stages && s != current
    decreases |stages|
  {
    if stages == [] then []
    else (if stages[0] == current then [] else [stages[0]]) + OtherStages(stages[1..], current)
  }

  /** The stages are ten different names. */
  lemma StagesDistinct()
    ensures |Stages| == 10
    ensures forall i, j :: 0 <= i < j < |Stages| ==> Stages[i] != Stages[j]
  {
    assert Stages[2][0] == 'd' && Stages[8][0] == 'd' && Stages[2][1] != Stages[8][1];
    assert Stages[3][0] == 'o' && Stages[9][0] == 'o' && Stages[3][1] != Stages[9][1];
    assert Stages[1][0] == 'r' && Stages[4][0] == 'r' && Stages[1][3] != Stages[4][3];
    assert Stages[0][0] == 'i' && Stages[6][0] == 'i' && Stages[0][1] != Stages[6][1];
  }

  /** A contact on the board can be moved to nine stages; one off the board to all ten. */
  lemma {:induction false} OtherStagesCount(stages: seq<string>, current: string)
    requires forall i, j :: 0 <= i < j < |stages| ==> stages[i] != stages[j]
    ensures |OtherStages(stages, current)| == if current in stages then |stages| - 1 else |stages|
    decreases |stages|
  {
    if stages != [] {
      assert forall i, j :: 0 <= i < j < |stages[1..]| ==> stages[1..][i] != stages[1..][j];
      OtherStagesCount(stages[1..], current);
      if stages[0] == current {
        assert current !in stages[1..];
      }
    }
  }

  lemma MoveTargetsCount(current: string)
    ensures |MoveTargets(current)| == if current in Stages then 9 else 10
  {
    StagesDistinct();
    OtherStagesCount(Stages, current);
  }

  /** The `RangeError` message of `String.prototype.repeat` for a negative count (its value left out). */
  const InvalidCount := "RangeError: Invalid count value"

  /**
   * The alignment field: none when the score is missing or 0, else `score` filled stars and
   * `5 - score` empty ones; `repeat` throws a `RangeError` on a negative count.
   */
  function AlignmentStars(score: Option<int>): (r: Result<Option<string>, string>)
    ensures r.Ok? <==> score.None? || 0 <= score.value <= 5
    ensures r.Ok? && r.value.Some? ==> score.Some? && 1 <= score.value <= 5 && |r.value.value| == 5
    ensures r.Ok? && r.value.Some? ==>
      (forall k :: 0 <= k < score.value ==> r.value.value[k] == '★')
      && (forall k :: score.value <= k < 5 ==> r.value.value[k] == '☆')
  {
    if score.None? || score.value == 0 then Ok(None)
    else if score.value < 0 || score.value > 5 then Err(InvalidCount)
    else Ok(Some(Repeat("★", score.value) + Repeat("☆", 5 - score.value)))
  }

  /** The query of the contacts fetch: `type` and `search`, each only when not empty. */
  function Params(filterType: string, search: string): (ps: seq<(string, string)>)
    ensures |ps| <= 2
    ensures ("type", filterType) in ps <==> filterType != ""
    ensures ("search", search) in ps <==> search != ""
    ensures forall k :: 0 <= k < |ps| ==> ps[k] == ("type", filterType) || ps[k] == ("search", search)
    ensures filterType != "" ==> ps[0] == ("type", filterType)
  {
    (if filterType != "" then [("type", filterType)] else []) + (if search != "" then [("search", search)] else [])
  }

  /** `data.contacts ?? []`: the list the response carries, or an empty one when it is missing or null. */
  function ContactsOf(data: Json.Value): (r: Json.Value)
    ensures Json.Get(data, "contacts").Some? && !Json.Get(data, "contacts").value.Null? ==> r == Json.Get(data, "contacts").value
    ensures Json.Get(data, "contacts").None? || Json.Get(data, "contacts").value.Null? ==> r == Json.Arr([])
  {
    match Json.Get(data, "contacts")
    case Some(v) => if v.Null? then Json.Arr([]) else v
    case None => Json.Arr([])
  }

  /** `moveStage(id, stage)`: the PATCH body, then the refetch with the current filters. */
  function MoveStage(id: string, stage: string, filterType: string, search: string): (r: (Json.Value, seq<(string, string)>))
    ensures r.0.Obj? && r.0.fields.Keys == {"id", "stage"}
    ensures Json.Get(r.0, "id") == Some(Json.Str(id)) && Json.Get(r.0, "stage") == Some(Json.Str(stage))
    ensures r.1 == Params(filterType, search)
  {
    (Json.Obj(map["id" := Json.Str(id), "stage" := Json.Str(stage)]), Params(filterType, search))
  }
}
