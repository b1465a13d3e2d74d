/**
 * The research-inquiry workflow: a classify step that stamps an inquiry id and picks the
 * Charter standard for the research area, and a route step that acknowledges, suspends
 * for board review, or completes a resumed review. The workflow engine is reduced to a
 * start/resume state machine around the two step bodies.
 */
module InquiryWorkflow {
  import opened Common
  import Text
  import Numerals

  datatype Area = SensorySafety | KineticEquity | AlgorithmicAccountability | SpatialJustice | Other

  /** The `VALID_AREAS` spelling of an area. */
  function AreaName(a: Area): string {
    match a
    case SensorySafety => "sensory-safety"
    case KineticEquity => "kinetic-equity"
    case AlgorithmicAccountability => "algorithmic-accountability"
    case SpatialJustice => "spatial-justice"
    case Other => "other"
  }

  /** The `z.enum(VALID_AREAS)` check on the input's research area. */
  function ParseArea(s: string): (a: Option<Area>)
    ensures a.Some? ==> AreaName(a.value) == s
    ensures a.None? ==> forall b: Area :: AreaName(b) != s
  {
    if s == "sensory-safety" then Some(SensorySafety)
    else if s == "kinetic-equity" then Some(KineticEquity)
    else if s == "algorithmic-accountability" then Some(AlgorithmicAccountability)
    else if s == "spatial-justice" then Some(SpatialJustice)
    else if s == "other" then Some(Other)
    else None
  }

  lemma ParseAreaName(a: Area)
    ensures ParseArea(AreaName(a)) == Some(a)
  {
  }

  /** The workflow input, after schema validation. */
  datatype Inquiry = Inquiry(name: string, email: string, institution: string, researchArea: Area, description: string)

  /** `standardMap`, keyed by area name. */
  const StandardMap: map<string, string> := map[
    "sensory-safety" := "Grandin Standard",
    "kinetic-equity" := "Heumann Standard",
    "algorithmic-accountability" := "Crenshaw Standard",
    "spatial-justice" := "Heumann & Crenshaw Standards",
    "other" := "General Charter"]

  /** The classify step's output: the input spread unchanged, plus the id and the standard. */
  datatype Classified = Classified(input: Inquiry, inquiryId: string, charterStandard: string)

  /**
   * The classify step, given `Date.now()`: the id is "INQ-" and the time stamp in upper-case
   * base 36, and the standard is the table's entry for the area.
   */
  function Classify(input: Inquiry, now: nat): (c: Classified)
    ensures c.input == input
    ensures Text.StartsWith(c.inquiryId, "INQ-") && Numerals.FromRadix(c.inquiryId[4..], 36) == now
    ensures input.researchArea == SensorySafety ==> c.charterStandard == "Grandin Standard"
    ensures input.researchArea == KineticEquity ==> c.charterStandard == "Heumann Standard"
    ensures input.researchArea == AlgorithmicAccountability ==> c.charterStandard == "Crenshaw Standard"
    ensures input.researchArea == SpatialJustice ==> c.charterStandard == "Heumann & Crenshaw Standards"
    ensures input.researchArea == Other ==> c.charterStandard == "General Charter"
  {
    var key := AreaName(input.researchArea);
    StandardMapLookup(input.researchArea);
    var looked := if key in StandardMap then StandardMap[key] else "";
    var id := "INQ-" + Numerals.Base36Upper(now);
    assert id[4..] == Numerals.Base36Upper(now);
    Classified(input, id, if looked != "" then looked else "General Charter")
  }

  /** The table has an entry, never empty, for every area. */
  lemma StandardMapLookup(a: Area)
    ensures AreaName(a) in StandardMap
    ensures a == SensorySafety ==> StandardMap[AreaName(a)] == "Grandin Standard"
    ensures a == KineticEquity ==> StandardMap[AreaName(a)] == "Heumann Standard"
    ensures a == AlgorithmicAccountability ==> StandardMap[AreaName(a)] == "Crenshaw Standard"
    ensures a == SpatialJustice ==> StandardMap[AreaName(a)] == "Heumann & Crenshaw Standards"
    ensures a == Other ==> StandardMap[AreaName(a)] == "General Charter"
  {
  }

  /** Two inquiries classified at different times get different ids. */
  lemma {:induction false} DistinctTimesDistinctIds(a: Inquiry, b: Inquiry, t: nat, u: nat)
    requires t != u
    ensures Classify(a, t).inquiryId != Classify(b, u).inquiryId
  {
  }

  datatype Status = Acknowledged | BoardReview | Rejected

  datatype InquiryResult = InquiryResult(status: Status, inquiryId: string, charterStandard: string, message: string)

  /** The resume data of a board review. */
  datatype Review = Review(approved: bool, reviewerNotes: Option<string>)

  datatype SuspendPayload = SuspendPayload(inquiryId: string, name: string, institution: string, description: string)

  /** What a step does: continue with a result, or suspend with a reason and a payload. */
  datatype StepOutcome = Continue(result: InquiryResult) | Suspend(reason: string, payload: SuspendPayload)

  const BoardReviewReason := "Board review required for unclassified research area"

  function ApprovedMessage(email: string, standard: string): string {
    "Your inquiry has been approved. A member of the IISF research team will contact you at " + email
    + " to discuss next steps regarding the " + standard + "."
  }

  const RejectedPrefix := "Thank you for your interest. Unfortunately, we are unable to proceed with this inquiry at this time. "

  function AcknowledgedMessage(name: string, id: string, standard: string, email: string): string {
    "Thank you, " + name + ". Your inquiry (" + id + ") regarding the " + standard
    + " has been received and acknowledged. We will be in touch at " + email + "."
  }

  /**
   * The route step. A review decides between acknowledged and rejected; without one, known
   * areas are acknowledged at once and "other" suspends for board review. Every result keeps
   * the classify step's id and standard.
   */
  function Route(c: Classified, review: Option<Review>): (o: StepOutcome)
    ensures o.Continue? ==> o.result.inquiryId == c.inquiryId && o.result.charterStandard == c.charterStandard
    ensures o.Continue? ==> o.result.status != BoardReview
    ensures review.Some? ==> o.Continue? && (o.result.status == Acknowledged <==> review.value.approved)
    ensures review.Some? && review.value.approved ==> o.result.message == ApprovedMessage(c.input.email, c.charterStandard)
    ensures review.Some? && !review.value.approved ==> o.result.message == RejectedPrefix + review.value.reviewerNotes.GetOr("")
    ensures review.None? && c.input.researchArea != Other ==>
      o == Continue(InquiryResult(Acknowledged, c.inquiryId, c.charterStandard,
                                  AcknowledgedMessage(c.input.name, c.inquiryId, c.charterStandard, c.input.email)))
    ensures review.None? && c.input.researchArea == Other ==>
      o == Suspend(BoardReviewReason, SuspendPayload(c.inquiryId, c.input.name, c.input.institution, c.input.description))
  {
    match review
    case Some(r) =>
      Continue(InquiryResult(
        if r.approved then Acknowledged else Rejected,
        c.inquiryId,
        c.charterStandard,
        if r.approved then ApprovedMessage(c.input.email, c.charterStandard)
        else RejectedPrefix + r.reviewerNotes.GetOr("")))
    case None =>
      if c.input.researchArea != Other then
        Continue(InquiryResult(Acknowledged, c.inquiryId, c.charterStandard,
                               AcknowledgedMessage(c.input.name, c.inquiryId, c.charterStandard, c.input.email)))
      else
        Suspend(BoardReviewReason, SuspendPayload(c.inquiryId, c.input.name, c.input.institution, c.input.description))
  }

  /** The acknowledgement names the applicant, quotes the inquiry id and gives the contact email. */
  lemma AcknowledgementMentions(name: string, id: string, standard: string, email: string)
    ensures var m := AcknowledgedMessage(name, id, standard, email);
            Text.Contains(m, name) && Text.Contains(m, id) && Text.Contains(m, email) && Text.Contains(m, standard)
  {
    var p1, p2, p3 := "Thank you, ", ". Your inquiry (", ") regarding the ";
    var p4, p5 := " has been received and acknowledged. We will be in touch at ", ".";
    var a1 := p1 + name + p2;
    var a2 := a1 + id + p3;
    var a3 := a2 + standard + p4;
    var a4 := a3 + email + p5;
    assert a4 == AcknowledgedMessage(name, id, standard, email);
    Text.ContainsSplice(p1, name, p2);
    Text.ContainsSplice(a1, id, p3);
    Text.ContainsSplice(a2, standard, p4);
    Text.ContainsSplice(a3, email, p5);
    ContainsGrows(a1, name, id, p3);
    ContainsGrows(a2, name, standard, p4);
    ContainsGrows(a3, name, email, p5);
    ContainsGrows(a2, id, standard, p4);
    ContainsGrows(a3, id, email, p5);
    ContainsGrows(a3, standard, email, p5);
  }

  /** Appending two pieces keeps what a text contains. */
  lemma ContainsGrows(a: string, sub: string, x: string, y: string)
    requires Text.Contains(a, sub)
    ensures Text.Contains(a + x + y, sub)
  {
    Text.ContainsInLeft(a, x, sub);
    Text.ContainsInLeft(a + x, y, sub);
  }

  /** The approval gives the contact email and names the standard. */
  lemma ApprovalMentions(email: string, standard: string)
    ensures Text.Contains(ApprovedMessage(email, standard), email)
    ensures Text.Contains(ApprovedMessage(email, standard), standard)
  {
    var p1 := "Your inquiry has been approved. A member of the IISF research team will contact you at ";
    var p2, p3 := " to discuss next steps regarding the ", ".";
    var a1 := p1 + email + p2;
    assert a1 + standard + p3 == ApprovedMessage(email, standard);
    Text.ContainsSplice(p1, email, p2);
    Text.ContainsSplice(a1, standard, p3);
    ContainsGrows(a1, email, standard, p3);
  }

  /** A run of the workflow: finished with a result, or suspended in the route step. */
  datatype Execution =
    | Completed(result: InquiryResult)
    | Suspended(data: Classified, reason: string, payload: SuspendPayload)

  /** Starting the workflow: classify, then route without resume data. */
  function Start(input: Inquiry, now: nat): (e: Execution)
    ensures e.Suspended? <==> input.researchArea == Other
    ensures e.Suspended? ==> e.data == Classify(input, now) && e.reason == BoardReviewReason
    ensures e.Completed? ==> e.result.status == Acknowledged && e.result.inquiryId == Classify(input, now).inquiryId
  {
    var c := Classify(input, now);
    match Route(c, None)
    case Continue(r) => Completed(r)
    case Suspend(reason, payload) => Suspended(c, reason, payload)
  }

  /** Resuming re-runs the suspended route step with the review; a finished run cannot be resumed. */
  function Resume(e: Execution, review: Review): (r: Result<Execution, string>)
    ensures r.Ok? <==> e.Suspended?
    ensures r.Ok? ==> r.value.Completed? && r.value.result.inquiryId == e.data.inquiryId
    ensures r.Ok? ==> (r.value.result.status == Acknowledged <==> review.approved)
  {
    match e
    case Completed(_) => Err("workflow is not suspended")
    case Suspended(c, _, _) => Ok(Completed(Route(c, Some(review)).result))
  }

  /**
   * From start to finish, an inquiry in a known area is acknowledged without review, and an
   * "other" inquiry is acknowledged or rejected by exactly one review; either way the result
   * carries the id stamped by the classify step and the area's standard.
   */
  lemma {:induction false} Lifecycle(input: Inquiry, now: nat, review: Review)
    ensures var c := Classify(input, now);
            var s := Start(input, now);
            var finished := if s.Completed? then s else Resume(s, review).value;
            finished.Completed? && finished.result.inquiryId == c.inquiryId &&
            finished.result.charterStandard == c.charterStandard &&
            Text.StartsWith(finished.result.inquiryId, "INQ-")
    ensures var s := Start(input, now);
            s.Suspended? ==> Resume(s, review).Ok? && Resume(Resume(s, review).value, review).Err?
  {
    var c := Classify(input, now);
    var s := Start(input, now);
    if s.Suspended? {
      assert Route(c, Some(review)).result.charterStandard == c.charterStandard;
    }
  }
}

/**
 * The ops-strategy cycle: the CRM snapshot it loads and the cardinality bounds of the
 * schema its agent step must satisfy.
 */
module StrategyCycleWorkflow {
  import opened Common
  import opened Counting

  /** The columns of a contact row read by the snapshot; the priority column may be null (`None`). */
  datatype ContactRow = ContactRow(id: string, stage: string, contactType: string, priority: Option<int>)

  datatype Snapshot = Snapshot(
    totalContacts: nat,
    highPriorityOpen: nat,
    stageSummary: map<string, nat>,
    typeSummary: map<string, nat>)

  /** The query the snapshot issues. */
  const SnapshotColumns := "id, stage, type, priority"
  const SnapshotLimit := 1000

  const MissingConfig := "SUPABASE_URL and SUPABASE_SERVICE_ROLE_KEY are required for ops-strategy-cycle workflow"

  /** `c.priority <= 2`: JavaScript compares a null priority as 0, so it passes. */
  predicate AtMostTwo(priority: Option<int>) {
    priority.None? || priority.value <= 2
  }

  /** A contact with priority at most 2 (or none) that is neither committed nor declined. */
  predicate HighPriorityOpen(c: ContactRow) {
    AtMostTwo(c.priority) && c.stage != "committed" && c.stage != "declined"
  }

  function CountHighPriorityOpen(rows: seq<ContactRow>): (n: nat)
    ensures n <= |rows|
    ensures n == 0 <==> forall i :: 0 <= i < |rows| ==> !HighPriorityOpen(rows[i])
    ensures n == |rows| <==> forall i :: 0 <= i < |rows| ==> HighPriorityOpen(rows[i])
    decreases |rows|
  {
    if rows == [] then 0
    else
      var init := rows[..|rows| - 1];
      assert forall i :: 0 <= i < |init| ==> init[i] == rows[i];
      CountHighPriorityOpen(init) + (if HighPriorityOpen(rows[|rows| - 1]) then 1 else 0)
  }

  /** An open contact whose priority is null is counted as high priority. */
  lemma NullPriorityCounted(id: string, stage: string, contactType: string)
    requires stage != "committed" && stage != "declined"
    ensures CountHighPriorityOpen([ContactRow(id, stage, contactType, None)]) == 1
  {
    assert [ContactRow(id, stage, contactType, None)][..0] == [];
  }

  function Stages(rows: seq<ContactRow>): (s: seq<string>)
    ensures |s| == |rows| && forall i :: 0 <= i < |rows| ==> s[i] == rows[i].stage
  {
    seq(|rows|, i requires 0 <= i < |rows| => rows[i].stage)
  }

  function Types(rows: seq<ContactRow>): (s: seq<string>)
    ensures |s| == |rows| && forall i :: 0 <= i < |rows| ==> s[i] == rows[i].contactType
  {
    seq(|rows|, i requires 0 <= i < |rows| => rows[i].contactType)
  }

  /** The snapshot of a list of rows: their number, the open high-priority count and the two tallies. */
  function SnapshotOf(rows: seq<ContactRow>): Snapshot {
    Snapshot(|rows|, CountHighPriorityOpen(rows), Tally(Stages(rows)), Tally(Types(rows)))
  }

  /**
   * `loadCrmSnapshot`, given the two configuration variables and what the query returned
   * (an error message, or the rows, `None` standing for `data: null`). The loop tallies stages
   * and types and counts the open high-priority contacts.
   */
  method LoadCrmSnapshot(url: Option<string>, key: Option<string>, fetched: Result<Option<seq<ContactRow>>, string>)
    returns (r: Result<Snapshot, string>)
    ensures (url.None? || url.value == "" || key.None? || key.value == "") ==> r == Err(MissingConfig)
    ensures url.Some? && url.value != "" && key.Some? && key.value != "" && fetched.Err? ==>
      r == Err("Failed to load CRM snapshot from Supabase: " + fetched.error)
    ensures url.Some? && url.value != "" && key.Some? && key.value != "" && fetched.Ok? ==>
      r == Ok(SnapshotOf(fetched.value.GetOr([])))
  {
    if url.None? || url.value == "" || key.None? || key.value == "" {
      return Err(MissingConfig);
    }
    if fetched.Err? {
      return Err("Failed to load CRM snapshot from Supabase: " + fetched.error);
    }
    var rows := fetched.value.GetOr([]);
    var stageSummary: map<string, nat> := map[];
    var typeSummary: map<string, nat> := map[];
    var highPriorityOpen := 0;
    var i := 0;
    while i < |rows|
      invariant 0 <= i <= |rows|
      invariant stageSummary == Tally(Stages(rows[..i]))
      invariant typeSummary == Tally(Types(rows[..i]))
      invariant highPriorityOpen == CountHighPriorityOpen(rows[..i])
    {
      var c := rows[i];
      PrefixStep(rows, i);
      stageSummary := Bump(stageSummary, c.stage);
      typeSummary := Bump(typeSummary, c.contactType);
      if AtMostTwo(c.priority) && c.stage != "committed" && c.stage != "declined" {
        highPriorityOpen := highPriorityOpen + 1;
      }
      i := i + 1;
    }
    assert rows[..|rows|] == rows;
    r := Ok(Snapshot(|rows|, highPriorityOpen, stageSummary, typeSummary));
  }

  /** Extending the rows read so far by one row extends each fold by that row. */
  lemma PrefixStep(rows: seq<ContactRow>, i: nat)
    requires i < |rows|
    ensures var c := rows[i];
            Tally(Stages(rows[..i + 1])) == Bump(Tally(Stages(rows[..i])), c.stage) &&
            Tally(Types(rows[..i + 1])) == Bump(Tally(Types(rows[..i])), c.contactType) &&
            CountHighPriorityOpen(rows[..i + 1]) == CountHighPriorityOpen(rows[..i]) + (if HighPriorityOpen(c) then 1 else 0)
  {
    var c := rows[i];
    assert Stages(rows[..i + 1]) == Stages(rows[..i]) + [c.stage] by {
      StagesSnoc(rows, i);
    }
    assert Types(rows[..i + 1]) == Types(rows[..i]) + [c.contactType] by {
      TypesSnoc(rows, i);
    }
    TallySnoc(Stages(rows[..i]), c.stage);
    TallySnoc(Types(rows[..i]), c.contactType);
    assert rows[..i + 1][..i] == rows[..i];
  }

  lemma StagesSnoc(rows: seq<ContactRow>, i: nat)
    requires i < |rows|
    ensures Stages(rows[..i + 1]) == Stages(rows[..i]) + [rows[i].stage]
  {
  }

  lemma TypesSnoc(rows: seq<ContactRow>, i: nat)
    requires i < |rows|
    ensures Types(rows[..i + 1]) == Types(rows[..i]) + [rows[i].contactType]
  {
  }

  /**
   * In a snapshot the stage counts and the type counts each add up to the number of contacts,
   * each count is the number of contacts with that stage (or type), and the open high-priority
   * contacts are some of them.
   */
  lemma SnapshotCounts(rows: seq<ContactRow>)
    ensures var s := SnapshotOf(rows);
            MapSum(s.stageSummary) == s.totalContacts && MapSum(s.typeSummary) == s.totalContacts &&
            s.highPriorityOpen <= s.totalContacts
    ensures var s := SnapshotOf(rows);
            forall stage :: stage in s.stageSummary ==> s.stageSummary[stage] == Count(Stages(rows), stage)
  {
    TallySum(Stages(rows));
    TallySum(Types(rows));
    TallyCounts(Stages(rows));
  }

  /** The field constraints of one funding-pipeline item: an integer priority score in 1..5. */
  datatype FundingItem = FundingItem(name: string, priorityScore: int)

  /** A board/advisor item: a priority score in 1..5 and at least one expertise tag. */
  datatype BoardItem = BoardItem(name: string, priorityScore: int, expertiseTags: seq<string>)

  /** A domain concept: at least one external leader or source and one suggested format. */
  datatype DomainItem = DomainItem(concept: string, externalLeaders: seq<string>, suggestedFormats: seq<string>)

  /** A content piece: at least three main sections and one search-entity target. */
  datatype ContentPiece = ContentPiece(workingTitle: string, mainSections: seq<string>, searchEntityTargets: seq<string>)

  datatype ActionItem = ActionItem(action: string, priority: string)

  /** The parts of an ops-strategy result that carry bounds. */
  datatype StrategyResult = StrategyResult(
    fundingPipeline: seq<FundingItem>,
    boardAdvisorPipeline: seq<BoardItem>,
    domainOwnershipMap: seq<DomainItem>,
    pillarPages: seq<ContentPiece>,
    supportingPieces: seq<ContentPiece>,
    topPriorityPieces: seq<ContentPiece>,
    nextActions: seq<ActionItem>)

  predicate ValidScore(n: int) {
    1 <= n <= 5
  }

  predicate ValidPiece(p: ContentPiece) {
    |p.mainSections| >= 3 && |p.searchEntityTargets| >= 1
  }

  predicate ValidPieces(ps: seq<ContentPiece>) {
    forall i :: 0 <= i < |ps| ==> ValidPiece(ps[i])
  }

  /** `opsStrategyCycleResultSchema` restricted to its bounds. */
  predicate ValidResult(r: StrategyResult) {
    && |r.fundingPipeline| >= 5
    && (forall i :: 0 <= i < |r.fundingPipeline| ==> ValidScore(r.fundingPipeline[i].priorityScore))
    && |r.boardAdvisorPipeline| >= 5
    && (forall i :: 0 <= i < |r.boardAdvisorPipeline| ==>
          ValidScore(r.boardAdvisorPipeline[i].priorityScore) && |r.boardAdvisorPipeline[i].expertiseTags| >= 1)
    && 10 <= |r.domainOwnershipMap| <= 30
    && (forall i :: 0 <= i < |r.domainOwnershipMap| ==>
          |r.domainOwnershipMap[i].externalLeaders| >= 1 && |r.domainOwnershipMap[i].suggestedFormats| >= 1)
    && |r.pillarPages| >= 3 && ValidPieces(r.pillarPages)
    && |r.supportingPieces| >= 5 && ValidPieces(r.supportingPieces)
    && 5 <= |r.topPriorityPieces| <= 10 && ValidPieces(r.topPriorityPieces)
    && 3 <= |r.nextActions| <= 5
    && (forall i :: 0 <= i < |r.nextActions| ==> r.nextActions[i].priority in {"high", "medium", "low"})
  }

  /** `maxRetries` of the schema-checked agent step. */
  const MaxRetries := 2

  /**
   * The schema-checked agent step, read as: the first valid one of the first
   * `MaxRetries + 1` candidate outputs, if any.
   */
  function SchemaCheckedStep(candidates: seq<StrategyResult>): (r: Option<StrategyResult>)
    ensures r.Some? ==> ValidResult(r.value)
    ensures r.Some? ==> exists i :: FirstValidAt(candidates, MaxRetries + 1, i) && candidates[i] == r.value
    ensures r.None? ==> forall i :: 0 <= i < |candidates| && i <= MaxRetries ==> !ValidResult(candidates[i])
  {
    FirstValid(candidates, MaxRetries + 1)
  }

  function FirstValid(candidates: seq<StrategyResult>, attempts: nat): (r: Option<StrategyResult>)
    ensures r.Some? ==> ValidResult(r.value)
    ensures r.Some? ==> exists i :: FirstValidAt(candidates, attempts, i) && candidates[i] == r.value
    ensures r.None? ==> forall i :: 0 <= i < |candidates| && i < attempts ==> !ValidResult(candidates[i])
    decreases attempts
  {
    if attempts == 0 || candidates == [] then None
    else if ValidResult(candidates[0]) then
      assert FirstValidAt(candidates, attempts, 0);
      Some(candidates[0])
    else
      var r := FirstValid(candidates[1..], attempts - 1);
      assert r.Some? ==> exists i :: FirstValidAt(candidates, attempts, i) && candidates[i] == r.value by {
        if r.Some? {
          var j :| FirstValidAt(candidates[1..], attempts - 1, j) && candidates[1..][j] == r.value;
          assert candidates[j + 1] == r.value;
          assert FirstValidAt(candidates, attempts, j + 1) by {
            forall k | 0 <= k < j + 1
              ensures !ValidResult(candidates[k])
            {
              if k > 0 {
                assert candidates[k] == candidates[1..][k - 1];
              }
            }
          }
        }
      }
      r
  }

  /** Attempt `i` is allowed, its candidate is valid, and every earlier candidate was not. */
  predicate FirstValidAt(candidates: seq<StrategyResult>, attempts: nat, i: int) {
    0 <= i < |candidates| && i < attempts && ValidResult(candidates[i])
    && forall k :: 0 <= k < i ==> !ValidResult(candidates[k])
  }

  /** A result with a sixth next action fails the schema, however good the rest is. */
  lemma TooManyActionsInvalid(r: StrategyResult)
    requires |r.nextActions| > 5
    ensures !ValidResult(r)
  {
  }
}
