/**
 * The CRM tools the agents call (`crm_add_contact`, `crm_update_status`, `crm_add_note`,
 * `crm_query`). The Supabase client is replaced by the answers it gives: each tool receives
 * the rows or the error its queries return, and yields the object it hands back to the agent,
 * here a datatype with one constructor per shape of that object.
 */
module CrmTools {
  import opened Common
  import opened Counting

  const MissingConfig := "SUPABASE_URL and SUPABASE_SERVICE_ROLE_KEY are required"
  const NoFields := "No fields to update"
  const NoTarget := "Provide contact_id or name"

  /** A contact as `crm_query` reports it, with its activity. */
  datatype ContactReport = ContactReport(contact: Contact, interactions: nat, lastInteraction: Option<string>)

  /** The columns of a stored contact that `crm_query` hands back. */
  datatype Contact = Contact(id: string, name: string, organization: Option<string>, contactType: string,
                             stage: string, priority: int, amountTarget: Option<string>,
                             alignmentScore: Option<int>, nextAction: Option<string>,
                             nextActionDate: Option<string>, updatedAt: string)

  /** The object a tool returns: `{ error }` or one of its success shapes. */
  datatype Answer =
    | Failed(error: string)
    | ContactAdded(id: string, name: string, stage: string)
    | StatusUpdated(id: string, updated: seq<string>)
    | NoteAdded(interactionId: string, contactId: string, noteType: string)
    | NoContacts
    | Pipeline(count: nat, summary: map<string, nat>, contacts: seq<ContactReport>)

  /** A tool call returns an answer, or throws (only `getSupabase` throws). */
  datatype Outcome = Returned(answer: Answer) | Threw(message: string)

  /** `getSupabase`: both variables must be non-empty. */
  predicate Configured(url: Option<string>, key: Option<string>) {
    url.Some? && url.value != "" && key.Some? && key.value != ""
  }

  /** A truthy optional string argument. */
  predicate Supplied(s: Option<string>) {
    s.Some? && s.value != ""
  }

  // ---------------------------------------------------------------------------------------
  // crm_add_contact

  /** The `crm_add_contact` arguments; `None` is an omitted optional one. */
  datatype NewContact = NewContact(
    name: string, organization: Option<string>, contactType: string, category: Option<string>,
    email: Option<string>, url: Option<string>, stage: Option<string>, priority: Option<int>,
    amountTarget: Option<string>, alignmentScore: Option<int>, notes: Option<string>,
    nextAction: Option<string>, nextActionDate: Option<string>)

  /** The row inserted into `contacts`: every column written, null (`None`) where omitted. */
  datatype ContactRow = ContactRow(
    name: string, organization: Option<string>, contactType: string, category: Option<string>,
    email: Option<string>, url: Option<string>, stage: string, priority: int,
    amountTarget: Option<string>, alignmentScore: Option<int>, notes: Option<string>,
    nextAction: Option<string>, nextActionDate: Option<string>)

  /** The inserted row: the stage defaults to "identified", the priority to 3. */
  function InsertRow(a: NewContact): (row: ContactRow)
    ensures a.stage.None? ==> row.stage == "identified"
    ensures a.stage.Some? ==> row.stage == a.stage.value
    ensures a.priority.None? ==> row.priority == 3
    ensures a.priority.Some? ==> row.priority == a.priority.value
    ensures row.name == a.name && row.contactType == a.contactType && row.notes == a.notes
  {
    ContactRow(a.name, a.organization, a.contactType, a.category, a.email, a.url,
               a.stage.GetOr("identified"), a.priority.GetOr(3), a.amountTarget, a.alignmentScore,
               a.notes, a.nextAction, a.nextActionDate)
  }

  /** A contact given only a name and a type is stored as a new, medium-priority lead. */
  lemma MinimalContact(name: string, contactType: string)
    ensures var row := InsertRow(NewContact(name, None, contactType, None, None, None, None, None, None, None, None, None, None));
            row.stage == "identified" && row.priority == 3 && row.organization.None? && row.email.None? &&
            row.notes.None? && row.nextAction.None? && row.alignmentScore.None?
  {
  }

  /** What the insert selected back. */
  datatype Inserted = Inserted(id: string, name: string, stage: string)

  /** `crm_add_contact`, given what the insert returned. */
  function AddContact(url: Option<string>, key: Option<string>, inserted: Result<Inserted, string>): (r: Outcome)
    ensures !Configured(url, key) <==> r == Threw(MissingConfig)
    ensures Configured(url, key) && inserted.Err? ==> r == Returned(Failed(inserted.error))
    ensures Configured(url, key) && inserted.Ok? ==>
      r == Returned(ContactAdded(inserted.value.id, inserted.value.name, inserted.value.stage))
  {
    if !Configured(url, key) then Threw(MissingConfig)
    else match inserted
      case Err(e) => Returned(Failed(e))
      case Ok(row) => Returned(ContactAdded(row.id, row.name, row.stage))
  }

  // ---------------------------------------------------------------------------------------
  // Resolving the contact

  /**
   * The contact the update and note tools act on: a non-empty `contact_id` wins; otherwise a
   * non-empty name is looked up (`lookup` is the id of the first `ilike` match, if any).
   */
  function ResolveId(contactId: Option<string>, name: Option<string>, lookup: Option<string>): (r: Result<string, string>)
    ensures Supplied(contactId) ==> r == Ok(contactId.value)
    ensures !Supplied(contactId) && Supplied(name) && lookup.None? ==>
      r == Err("No contact found matching \"" + name.value + "\"")
    ensures !Supplied(contactId) && !Supplied(name) ==> r == Err(NoTarget)
    ensures r.Ok? ==> r.value != "" && (Supplied(contactId) || Some(r.value) == lookup)
  {
    if Supplied(contactId) then Ok(contactId.value)
    else if Supplied(name) then
      if lookup.None? then Err("No contact found matching \"" + name.value + "\"")
      else if lookup.value == "" then Err(NoTarget)
      else Ok(lookup.value)
    else Err(NoTarget)
  }

  /** Once an id is given, the name and its lookup do not matter. */
  lemma IdBeatsName(contactId: string, name1: Option<string>, name2: Option<string>,
                    lookup1: Option<string>, lookup2: Option<string>)
    requires contactId != ""
    ensures ResolveId(Some(contactId), name1, lookup1) == ResolveId(Some(contactId), name2, lookup2)
  {
  }

  // ---------------------------------------------------------------------------------------
  // crm_update_status

  /** `prev ? prev + "\n" + notes : notes`. */
  function AppendNotes(prev: string, notes: string): (r: string)
    ensures prev == "" ==> r == notes
    ensures prev != "" ==> |r| == |prev| + 1 + |notes| && r[..|prev|] == prev && r[|prev|] == '\n' && r[|prev| + 1..] == notes
  {
    if prev != "" then prev + "\n" + notes else notes
  }

  /** The columns `crm_update_status` may write, in the order it considers them. */
  datatype Column = StageColumn | PriorityColumn | NextActionColumn | NextActionDateColumn | NotesColumn

  function ColumnName(c: Column): string {
    match c
    case StageColumn => "stage"
    case PriorityColumn => "priority"
    case NextActionColumn => "next_action"
    case NextActionDateColumn => "next_action_date"
    case NotesColumn => "notes"
  }

  function Rank(c: Column): nat {
    match c
    case StageColumn => 0
    case PriorityColumn => 1
    case NextActionColumn => 2
    case NextActionDateColumn => 3
    case NotesColumn => 4
  }

  /** The `crm_update_status` arguments apart from the id and the name. */
  datatype StatusChange = StatusChange(
    stage: Option<string>, priority: Option<int>, nextAction: Option<string>,
    nextActionDate: Option<string>, notes: Option<string>)

  /** Whether the change supplies a truthy value for a column. */
  predicate Writes(c: StatusChange, col: Column) {
    match col
    case StageColumn => Supplied(c.stage)
    case PriorityColumn => c.priority.Some? && c.priority.value != 0
    case NextActionColumn => Supplied(c.nextAction)
    case NextActionDateColumn => Supplied(c.nextActionDate)
    case NotesColumn => Supplied(c.notes)
  }

  /** A value written to a column. */
  datatype Value = Text(text: string) | Number(number: int)

  /** The value written to a column the change supplies; the notes are appended to `prev`. */
  function ColumnValue(col: Column, c: StatusChange, prev: string): Value
    requires Writes(c, col)
  {
    match col
    case StageColumn => Text(c.stage.value)
    case PriorityColumn => Number(c.priority.value)
    case NextActionColumn => Text(c.nextAction.value)
    case NextActionDateColumn => Text(c.nextActionDate.value)
    case NotesColumn => Text(AppendNotes(prev, c.notes.value))
  }

  function Entry(col: Column, c: StatusChange, prev: string): seq<(Column, Value)> {
    if Writes(c, col) then [(col, ColumnValue(col, c, prev))] else []
  }

  /** The columns in the order the tool considers them. */
  const AllColumns := [StageColumn, PriorityColumn, NextActionColumn, NextActionDateColumn, NotesColumn]

  /** The entries for `cols`, in order, skipping the columns the change does not supply. */
  function Collect(cols: seq<Column>, c: StatusChange, prev: string): seq<(Column, Value)>
    decreases |cols|
  {
    if cols == [] then [] else Entry(cols[0], c, prev) + Collect(cols[1..], c, prev)
  }

  predicate Ascending(cols: seq<Column>) {
    forall i, j :: 0 <= i < j < |cols| ==> Rank(cols[i]) < Rank(cols[j])
  }

  /** Every collected field is one of the columns and is supplied. */
  lemma {:induction false} CollectWritten(cols: seq<Column>, c: StatusChange, prev: string)
    ensures forall i :: 0 <= i < |Collect(cols, c, prev)| ==>
              Collect(cols, c, prev)[i].0 in cols && Writes(c, Collect(cols, c, prev)[i].0)
    decreases |cols|
  {
    if cols != [] {
      var rest := cols[1..];
      CollectWritten(rest, c, prev);
      var e, fs := Entry(cols[0], c, prev), Collect(cols, c, prev);
      assert fs == e + Collect(rest, c, prev);
      forall i | |e| <= i < |fs| ensures fs[i].0 in cols {
        assert fs[i] == Collect(rest, c, prev)[i - |e|];
      }
    }
  }

  /** Collected fields keep the columns' strictly increasing order. */
  lemma {:induction false} CollectAscending(cols: seq<Column>, c: StatusChange, prev: string)
    requires Ascending(cols)
    ensures forall i, j :: 0 <= i < j < |Collect(cols, c, prev)| ==>
              Rank(Collect(cols, c, prev)[i].0) < Rank(Collect(cols, c, prev)[j].0)
    decreases |cols|
  {
    if cols != [] {
      var rest := cols[1..];
      CollectAscending(rest, c, prev);
      CollectWritten(rest, c, prev);
      var e, fs := Entry(cols[0], c, prev), Collect(cols, c, prev);
      assert fs == e + Collect(rest, c, prev);
      forall i | |e| <= i < |fs| ensures Rank(cols[0]) < Rank(fs[i].0) {
        assert fs[i] == Collect(rest, c, prev)[i - |e|];
        var k :| 0 <= k < |rest| && rest[k] == fs[i].0;
        assert cols[k + 1] == fs[i].0;
      }
    }
  }

  /** Every supplied column among `cols` is collected with its value. */
  lemma {:induction false} CollectComplete(cols: seq<Column>, c: StatusChange, prev: string)
    ensures forall col :: col in cols && Writes(c, col) ==> (col, ColumnValue(col, c, prev)) in Collect(cols, c, prev)
    decreases |cols|
  {
    if cols != [] {
      var rest := cols[1..];
      CollectComplete(rest, c, prev);
      var fs := Collect(cols, c, prev);
      assert fs == Entry(cols[0], c, prev) + Collect(rest, c, prev);
      forall col | col in cols && Writes(c, col)
        ensures (col, ColumnValue(col, c, prev)) in fs
      {
        if col != cols[0] {
          assert col in rest;
        }
      }
    }
  }

  /**
   * The fields of `updates`, in insertion order: one per supplied argument; for the notes, the
   * stored notes (`prevNotes`, `None` when null or missing) with the new note appended.
   */
  function UpdateFields(c: StatusChange, prevNotes: Option<string>): (fs: seq<(Column, Value)>)
    ensures forall i, j :: 0 <= i < j < |fs| ==> Rank(fs[i].0) < Rank(fs[j].0)
    ensures forall col :: Writes(c, col) ==> (col, ColumnValue(col, c, prevNotes.GetOr(""))) in fs
    ensures forall i :: 0 <= i < |fs| ==> Writes(c, fs[i].0)
  {
    var p := prevNotes.GetOr("");
    AllColumnsInOrder();
    CollectWritten(AllColumns, c, p);
    CollectAscending(AllColumns, c, p);
    CollectComplete(AllColumns, c, p);
    Collect(AllColumns, c, p)
  }

  /** The tool considers every column, in increasing rank. */
  lemma AllColumnsInOrder()
    ensures Ascending(AllColumns)
    ensures forall col :: col in AllColumns
  {
    forall col ensures col in AllColumns {
      assert col == AllColumns[Rank(col)];
    }
  }

  /** `UpdateFields` as the five conditional assignments it stands for. */
  lemma UpdateFieldsUnfold(c: StatusChange, prevNotes: Option<string>)
    ensures var p := prevNotes.GetOr("");
            UpdateFields(c, prevNotes) ==
              (((Entry(StageColumn, c, p) + Entry(PriorityColumn, c, p)) + Entry(NextActionColumn, c, p))
              + Entry(NextActionDateColumn, c, p)) + Entry(NotesColumn, c, p)
  {
    var p := prevNotes.GetOr("");
    var cs := AllColumns;
    CollectFive(cs, c, p);
    Regroup(Entry(cs[0], c, p), Entry(cs[1], c, p), Entry(cs[2], c, p), Entry(cs[3], c, p), Entry(cs[4], c, p));
  }

  /** Collecting five columns is the concatenation of their five entries. */
  lemma CollectFive(cols: seq<Column>, c: StatusChange, prev: string)
    requires |cols| == 5
    ensures Collect(cols, c, prev)
         == Entry(cols[0], c, prev) + (Entry(cols[1], c, prev) + (Entry(cols[2], c, prev)
            + (Entry(cols[3], c, prev) + Entry(cols[4], c, prev))))
  {
    assert cols[4..][1..] == [];
    assert Collect(cols[4..], c, prev) == Entry(cols[4], c, prev) + [];
    assert cols[3..][1..] == cols[4..];
    assert Collect(cols[3..], c, prev) == Entry(cols[3], c, prev) + Collect(cols[4..], c, prev);
    assert cols[2..][1..] == cols[3..];
    assert Collect(cols[2..], c, prev) == Entry(cols[2], c, prev) + Collect(cols[3..], c, prev);
    assert cols[1..][1..] == cols[2..];
    assert Collect(cols[1..], c, prev) == Entry(cols[1], c, prev) + Collect(cols[2..], c, prev);
  }

  lemma Regroup<T>(a: seq<T>, b: seq<T>, c: seq<T>, d: seq<T>, e: seq<T>)
    ensures a + (b + (c + (d + e))) == (((a + b) + c) + d) + e
  {
  }

  function ColumnsOf(fs: seq<(Column, Value)>): seq<string> {
    seq(|fs|, i requires 0 <= i < |fs| => ColumnName(fs[i].0))
  }

  function FieldMap(fs: seq<(Column, Value)>): map<Column, Value>
    decreases |fs|
  {
    if fs == [] then map[] else FieldMap(fs[..|fs| - 1])[fs[|fs| - 1].0 := fs[|fs| - 1].1]
  }

  /**
   * Building the `updates` record field by field, each only when its argument is truthy;
   * `updates` and `Object.keys(updates)` are the map and the ordered keys of those fields.
   */
  method BuildUpdates(c: StatusChange, prevNotes: Option<string>) returns (updates: map<Column, Value>, keys: seq<string>)
    ensures keys == ColumnsOf(UpdateFields(c, prevNotes))
    ensures updates == FieldMap(UpdateFields(c, prevNotes))
  {
    var p := prevNotes.GetOr("");
    var fs: seq<(Column, Value)> := [];
    updates, keys := map[], [];
    fs, updates, keys := Put(fs, updates, keys, StageColumn, c, p);
    fs, updates, keys := Put(fs, updates, keys, PriorityColumn, c, p);
    fs, updates, keys := Put(fs, updates, keys, NextActionColumn, c, p);
    fs, updates, keys := Put(fs, updates, keys, NextActionDateColumn, c, p);
    fs, updates, keys := Put(fs, updates, keys, NotesColumn, c, p);
    UpdateFieldsUnfold(c, prevNotes);
    assert fs == UpdateFields(c, prevNotes);
  }

  /** `if (args.<column>) updates.<column> = value`, with `fs` the fields written so far. */
  method Put(fs: seq<(Column, Value)>, updates: map<Column, Value>, keys: seq<string>, col: Column, c: StatusChange, prev: string)
    returns (fs': seq<(Column, Value)>, updates': map<Column, Value>, keys': seq<string>)
    requires updates == FieldMap(fs) && keys == ColumnsOf(fs)
    ensures fs' == fs + Entry(col, c, prev)
    ensures updates' == FieldMap(fs') && keys' == ColumnsOf(fs')
  {
    fs', updates', keys' := fs, updates, keys;
    if Writes(c, col) {
      var v := ColumnValue(col, c, prev);
      fs' := fs + [(col, v)];
      updates' := updates[col := v];
      keys' := keys + [ColumnName(col)];
      assert fs'[..|fs'| - 1] == fs;
    } else {
      assert fs' == fs + [];
    }
  }

  /** With columns in increasing order, the map holds every field with its value. */
  lemma {:induction false} FieldMapValues(fs: seq<(Column, Value)>)
    requires forall i, j :: 0 <= i < j < |fs| ==> Rank(fs[i].0) < Rank(fs[j].0)
    ensures forall i :: 0 <= i < |fs| ==> fs[i].0 in FieldMap(fs) && FieldMap(fs)[fs[i].0] == fs[i].1
    decreases |fs|
  {
    if fs != [] {
      var n := |fs| - 1;
      var pre := fs[..n];
      FieldMapValues(pre);
      forall i | 0 <= i < n
        ensures fs[i].0 in FieldMap(fs) && FieldMap(fs)[fs[i].0] == fs[i].1
      {
        assert pre[i] == fs[i];
        assert Rank(fs[i].0) < Rank(fs[n].0);
      }
    }
  }

  /** The map has no key but the fields' columns. */
  lemma {:induction false} FieldMapKeys(fs: seq<(Column, Value)>)
    ensures forall col :: col in FieldMap(fs) ==> exists i :: 0 <= i < |fs| && fs[i].0 == col
    decreases |fs|
  {
    if fs != [] {
      var n := |fs| - 1;
      var pre := fs[..n];
      FieldMapKeys(pre);
      forall col | col in FieldMap(fs)
        ensures exists i :: 0 <= i < |fs| && fs[i].0 == col
      {
        if col != fs[n].0 {
          assert col in FieldMap(pre);
          var i :| 0 <= i < |pre| && pre[i].0 == col;
          assert fs[i].0 == col;
        }
      }
    }
  }

  /** The update writes, for each supplied column, exactly the value that column gets. */
  lemma UpdatesWritten(c: StatusChange, prevNotes: Option<string>, col: Column)
    ensures col in FieldMap(UpdateFields(c, prevNotes)) <==> Writes(c, col)
    ensures Writes(c, col) ==> FieldMap(UpdateFields(c, prevNotes))[col] == ColumnValue(col, c, prevNotes.GetOr(""))
  {
    var fs := UpdateFields(c, prevNotes);
    FieldMapValues(fs);
    FieldMapKeys(fs);
    if Writes(c, col) {
      var i :| 0 <= i < |fs| && fs[i] == (col, ColumnValue(col, c, prevNotes.GetOr("")));
    }
  }

  /** Appended notes keep the old notes and add the new one on a line of its own. */
  lemma NotesAppended(c: StatusChange, prev: string)
    requires Supplied(c.notes) && prev != ""
    ensures NotesColumn in FieldMap(UpdateFields(c, Some(prev)))
    ensures var t := FieldMap(UpdateFields(c, Some(prev)))[NotesColumn].text;
            t[..|prev|] == prev && t[|prev|] == '\n' && t[|prev| + 1..] == c.notes.value
  {
    UpdatesWritten(c, Some(prev), NotesColumn);
  }

  /**
   * `crm_update_status`, given the name lookup, the stored notes and the error of the write.
   * Nothing is written without a contact or without a field; a success lists the columns written.
   */
  function UpdateStatus(url: Option<string>, key: Option<string>, contactId: Option<string>, name: Option<string>,
                        lookup: Option<string>, c: StatusChange, prevNotes: Option<string>, written: Option<string>)
    : (r: Outcome)
    ensures !Configured(url, key) <==> r == Threw(MissingConfig)
    ensures Configured(url, key) && ResolveId(contactId, name, lookup).Err? ==>
      r == Returned(Failed(ResolveId(contactId, name, lookup).error))
    ensures Configured(url, key) && ResolveId(contactId, name, lookup).Ok? && (forall col :: !Writes(c, col)) ==>
      r == Returned(Failed(NoFields))
    ensures (r.Returned? && r.answer.StatusUpdated?) <==>
      (Configured(url, key) && ResolveId(contactId, name, lookup).Ok? && (exists col :: Writes(c, col)) && written.None?)
    ensures r.Returned? && r.answer.StatusUpdated? ==>
      r.answer.id == ResolveId(contactId, name, lookup).value &&
      r.answer.updated == ColumnsOf(UpdateFields(c, prevNotes))
  {
    if !Configured(url, key) then Threw(MissingConfig)
    else match ResolveId(contactId, name, lookup)
      case Err(e) => Returned(Failed(e))
      case Ok(id) =>
        var fs := UpdateFields(c, prevNotes);
        if fs == [] then
          Returned(Failed(NoFields))
        else if written.Some? then Returned(Failed(written.value))
        else
          assert Writes(c, fs[0].0);
          Returned(StatusUpdated(id, ColumnsOf(fs)))
  }

  /** The update reports a column name exactly when its argument was supplied. */
  lemma UpdatedColumnsAreSupplied(c: StatusChange, prevNotes: Option<string>, col: Column)
    ensures ColumnName(col) in ColumnsOf(UpdateFields(c, prevNotes)) <==> Writes(c, col)
  {
    var fs := UpdateFields(c, prevNotes);
    if ColumnName(col) in ColumnsOf(fs) {
      var i :| 0 <= i < |fs| && ColumnName(fs[i].0) == ColumnName(col);
      ColumnNamesDistinct(fs[i].0, col);
    }
    if Writes(c, col) {
      var i :| 0 <= i < |fs| && fs[i] == (col, ColumnValue(col, c, prevNotes.GetOr("")));
      assert ColumnsOf(fs)[i] == ColumnName(col);
    }
  }

  lemma ColumnNamesDistinct(a: Column, b: Column)
    requires ColumnName(a) == ColumnName(b)
    ensures a == b
  {
    var x := ColumnName(a);
    assert x[0] == ColumnName(b)[0] && |x| == |ColumnName(b)|;
  }

  // ---------------------------------------------------------------------------------------
  // crm_add_note

  /** `crm_add_note`: resolve the contact, then insert the interaction. */
  function AddNote(url: Option<string>, key: Option<string>, contactId: Option<string>, name: Option<string>,
                   lookup: Option<string>, noteType: string, inserted: Result<string, string>)
    : (r: Outcome)
    ensures !Configured(url, key) <==> r == Threw(MissingConfig)
    ensures Configured(url, key) && ResolveId(contactId, name, lookup).Err? ==>
      r == Returned(Failed(ResolveId(contactId, name, lookup).error))
    ensures (r.Returned? && r.answer.NoteAdded?) <==>
      (Configured(url, key) && ResolveId(contactId, name, lookup).Ok? && inserted.Ok?)
    ensures r.Returned? && r.answer.NoteAdded? ==>
      r.answer == NoteAdded(inserted.value, ResolveId(contactId, name, lookup).value, noteType)
  {
    if !Configured(url, key) then Threw(MissingConfig)
    else match ResolveId(contactId, name, lookup)
      case Err(e) => Returned(Failed(e))
      case Ok(id) =>
        match inserted
        case Err(e) => Returned(Failed(e))
        case Ok(ix) => Returned(NoteAdded(ix, id, noteType))
  }

  // ---------------------------------------------------------------------------------------
  // crm_query

  /** A filter of the contacts query. */
  datatype Filter = TypeIs(contactType: string) | StageIs(stage: string) | PriorityAtMost(bound: int) | Search(term: string)

  /** The contacts query: its filters, its order (priority ascending, then newest update) and its limit. */
  datatype Query = Query(filters: seq<Filter>, limit: int)

  /** The `crm_query` arguments. */
  datatype QueryArgs = QueryArgs(contactType: Option<string>, stage: Option<string>, minPriority: Option<int>,
                                 search: Option<string>, limit: Option<int>)

  /** The query `crm_query` sends: one filter per truthy argument, at most 50 rows unless told otherwise. */
  function QueryOf(a: QueryArgs): (q: Query)
    ensures q.limit == (if a.limit.Some? then a.limit.value else 50)
    ensures |q.filters| <= 4
  {
    var fs := (if Supplied(a.contactType) then [TypeIs(a.contactType.value)] else [])
      + (if Supplied(a.stage) then [StageIs(a.stage.value)] else [])
      + (if a.minPriority.Some? && a.minPriority.value != 0 then [PriorityAtMost(a.minPriority.value)] else [])
      + (if Supplied(a.search) then [Search(a.search.value)] else []);
    Query(fs, a.limit.GetOr(50))
  }

  /** The type filter is applied exactly when a non-empty type is given. */
  lemma QueryTypeFilter(a: QueryArgs)
    ensures Supplied(a.contactType) <==> TypeIs(a.contactType.GetOr("")) in QueryOf(a).filters
  {
  }

  /** The stage filter is applied exactly when a non-empty stage is given. */
  lemma QueryStageFilter(a: QueryArgs)
    ensures Supplied(a.stage) <==> StageIs(a.stage.GetOr("")) in QueryOf(a).filters
  {
  }

  /** A priority filter is applied exactly when a non-zero minimum priority is given, and it is that bound. */
  lemma QueryPriorityFilter(a: QueryArgs)
    ensures (a.minPriority.Some? && a.minPriority.value != 0) <==> (exists b :: PriorityAtMost(b) in QueryOf(a).filters)
    ensures forall b :: PriorityAtMost(b) in QueryOf(a).filters ==> a.minPriority == Some(b)
  {
    var fs := QueryOf(a).filters;
    if a.minPriority.Some? && a.minPriority.value != 0 {
      assert PriorityAtMost(a.minPriority.value) in fs;
    }
  }

  /** A search filter is applied exactly when a non-empty search term is given, and it is that term. */
  lemma QuerySearchFilter(a: QueryArgs)
    ensures Supplied(a.search) <==> (exists t :: Search(t) in QueryOf(a).filters)
    ensures forall t :: Search(t) in QueryOf(a).filters ==> a.search == Some(t)
  {
    var fs := QueryOf(a).filters;
    if Supplied(a.search) {
      assert Search(a.search.value) in fs;
    }
  }

  /** An interaction row, as the second query returns them (newest first). */
  datatype Interaction = Interaction(contactId: string, summary: Option<string>)

  /** An entry of `interactionMap`. */
  datatype Activity = Activity(count: nat, last: Option<string>)

  function ContactIds(rows: seq<Interaction>): (ids: seq<string>)
    ensures |ids| == |rows|
  {
    seq(|rows|, i requires 0 <= i < |rows| => rows[i].contactId)
  }

  lemma IdsSnoc(rows: seq<Interaction>, ix: Interaction)
    ensures ContactIds(rows + [ix]) == ContactIds(rows) + [ix.contactId]
  {
  }

  lemma IdsCons(rows: seq<Interaction>)
    requires rows != []
    ensures ContactIds(rows) == [rows[0].contactId] + ContactIds(rows[1..])
  {
  }

  /** The summary on the first row for `id`: the newest interaction's. */
  function FirstSummary(rows: seq<Interaction>, id: string): Option<string>
    requires id in ContactIds(rows)
    decreases |rows|
  {
    IdsCons(rows);
    if rows[0].contactId == id then rows[0].summary else FirstSummary(rows[1..], id)
  }

  /** The interaction map after reading `rows` in order, as the loop builds it. */
  function ActivityMap(rows: seq<Interaction>): map<string, Activity>
    decreases |rows|
  {
    if rows == [] then map[]
    else
      var m := ActivityMap(rows[..|rows| - 1]);
      var ix := rows[|rows| - 1];
      if ix.contactId in m then m[ix.contactId := Activity(m[ix.contactId].count + 1, m[ix.contactId].last)]
      else m[ix.contactId := Activity(1, ix.summary)]
  }

  /** What the interaction map means: per contact seen, its number of rows and the newest summary. */
  ghost predicate ActivityOf(m: map<string, Activity>, rows: seq<Interaction>) {
    (forall id :: id in m <==> id in ContactIds(rows)) &&
    forall id :: id in m ==>
      (id in ContactIds(rows) && m[id].count == Count(ContactIds(rows), id) && m[id].last == FirstSummary(rows, id))
  }

  /** `interactionMap` counts every contact's interactions and keeps the newest one's summary. */
  lemma {:induction false} ActivityMapMeans(rows: seq<Interaction>)
    ensures ActivityOf(ActivityMap(rows), rows)
    decreases |rows|
  {
    if rows != [] {
      var n := |rows| - 1;
      var pre, ix := rows[..n], rows[n];
      assert rows == pre + [ix];
      ActivityMapMeans(pre);
      ActivityStep(ActivityMap(pre), pre, ix);
    }
  }

  lemma ActivityStep(m: map<string, Activity>, pre: seq<Interaction>, ix: Interaction)
    requires ActivityOf(m, pre)
    ensures ActivityOf(if ix.contactId in m then m[ix.contactId := Activity(m[ix.contactId].count + 1, m[ix.contactId].last)]
                       else m[ix.contactId := Activity(1, ix.summary)], pre + [ix])
  {
    var post := pre + [ix];
    IdsSnoc(pre, ix);
    var m' := if ix.contactId in m then m[ix.contactId := Activity(m[ix.contactId].count + 1, m[ix.contactId].last)]
              else m[ix.contactId := Activity(1, ix.summary)];
    forall id | id in m'
      ensures m'[id].count == Count(ContactIds(post), id) && m'[id].last == FirstSummary(post, id)
    {
      CountSnoc(ContactIds(pre), ix.contactId, id);
      FirstSummarySnoc(pre, ix, id);
      if id !in m {
        CountAbsent(ContactIds(pre), id);
      }
    }
  }

  lemma CountSnoc(xs: seq<string>, x: string, y: string)
    ensures Count(xs + [x], y) == Count(xs, y) + (if x == y then 1 else 0)
  {
    TallySnoc(xs, x);
    TallyCounts(xs);
    TallyCounts(xs + [x]);
    if y !in xs + [x] {
      CountAbsent(xs + [x], y);
      CountAbsent(xs, y);
    } else if y !in xs {
      CountAbsent(xs, y);
    }
  }

  /** Reading one more row leaves the newest summary of a contact seen before unchanged. */
  lemma {:induction false} FirstSummarySnoc(pre: seq<Interaction>, ix: Interaction, id: string)
    requires id in ContactIds(pre + [ix])
    ensures id in ContactIds(pre) ==> FirstSummary(pre + [ix], id) == FirstSummary(pre, id)
    ensures id !in ContactIds(pre) ==> FirstSummary(pre + [ix], id) == ix.summary
    decreases |pre|
  {
    var post := pre + [ix];
    IdsSnoc(pre, ix);
    if pre == [] {
      assert post == [ix];
    } else {
      IdsCons(pre);
      IdsCons(post);
      assert post[1..] == pre[1..] + [ix];
      if pre[0].contactId != id {
        IdsSnoc(pre[1..], ix);
        FirstSummarySnoc(pre[1..], ix, id);
      }
    }
  }

  /** The loop over the (newest-first) interaction rows. */
  method InteractionMap(rows: seq<Interaction>) returns (m: map<string, Activity>)
    ensures m == ActivityMap(rows)
  {
    m := map[];
    var i := 0;
    while i < |rows|
      invariant 0 <= i <= |rows|
      invariant m == ActivityMap(rows[..i])
    {
      var ix := rows[i];
      assert rows[..i + 1][..i] == rows[..i];
      if ix.contactId in m {
        m := m[ix.contactId := Activity(m[ix.contactId].count + 1, m[ix.contactId].last)];
      } else {
        m := m[ix.contactId := Activity(1, ix.summary)];
      }
      i := i + 1;
    }
    assert rows[..|rows|] == rows;
  }

  /** The loop over all contacts' stages that yields `pipeline_summary`. */
  method StageSummary(stages: seq<string>) returns (summary: map<string, nat>)
    ensures summary == Tally(stages)
  {
    summary := map[];
    var i := 0;
    while i < |stages|
      invariant 0 <= i <= |stages| && summary == Tally(stages[..i])
    {
      var s := stages[i];
      TallySnoc(stages[..i], s);
      assert stages[..i + 1] == stages[..i] + [s];
      summary := Bump(summary, s);
      i := i + 1;
    }
    assert stages[..|stages|] == stages;
  }

  /** `interactions: ix?.count ?? 0` and `last_interaction: ix?.last ?? null`. */
  function Report(m: map<string, Activity>, c: Contact): ContactReport {
    if c.id in m then ContactReport(c, m[c.id].count, m[c.id].last) else ContactReport(c, 0, None)
  }

  function Reports(m: map<string, Activity>, contacts: seq<Contact>): (rs: seq<ContactReport>)
    ensures |rs| == |contacts| && forall i :: 0 <= i < |contacts| ==> rs[i] == Report(m, contacts[i])
  {
    seq(|contacts|, i requires 0 <= i < |contacts| => Report(m, contacts[i]))
  }

  /**
   * The answer of `crm_query`, given what its three queries return: the contacts (an error, or
   * rows, `None` for null data), the interactions and all stages (`None` for null data).
   */
  function QueryAnswer(contacts: Result<Option<seq<Contact>>, string>, interactions: Option<seq<Interaction>>,
                       allStages: Option<seq<string>>): Answer
  {
    match contacts
    case Err(e) => Failed(e)
    case Ok(None) => NoContacts
    case Ok(Some(cs)) =>
      if cs == [] then NoContacts
      else Pipeline(|cs|, Tally(allStages.GetOr([])), Reports(ActivityMap(interactions.GetOr([])), cs))
  }

  /** `crm_query`: the two loops and the final mapping. */
  method RunQuery(url: Option<string>, key: Option<string>, contacts: Result<Option<seq<Contact>>, string>,
                  interactions: Option<seq<Interaction>>, allStages: Option<seq<string>>) returns (r: Outcome)
    ensures !Configured(url, key) ==> r == Threw(MissingConfig)
    ensures Configured(url, key) ==> r == Returned(QueryAnswer(contacts, interactions, allStages))
  {
    if !Configured(url, key) {
      return Threw(MissingConfig);
    }
    match contacts
    case Err(e) =>
      r := Returned(Failed(e));
    case Ok(None) =>
      r := Returned(NoContacts);
    case Ok(Some(cs)) =>
      if cs == [] {
        r := Returned(NoContacts);
      } else {
        var m := InteractionMap(if interactions.Some? then interactions.value else []);
        var summary := StageSummary(if allStages.Some? then allStages.value else []);
        r := Returned(Pipeline(|cs|, summary, Reports(m, cs)));
      }
  }

  /**
   * Every reported contact carries the number of its interaction rows and, when it has any,
   * the summary of the newest; the pipeline summary counts every contact by stage.
   */
  lemma QueryReports(cs: seq<Contact>, rows: seq<Interaction>, stages: seq<string>, i: nat)
    requires i < |cs|
    ensures var a := QueryAnswer(Ok(Some(cs)), Some(rows), Some(stages));
            a.Pipeline? && a.count == |cs| && MapSum(a.summary) == |stages| &&
            (forall s :: s in a.summary ==> a.summary[s] == Count(stages, s)) &&
            a.contacts[i].contact == cs[i] &&
            a.contacts[i].interactions == Count(ContactIds(rows), cs[i].id) &&
            (cs[i].id in ContactIds(rows) ==> a.contacts[i].lastInteraction == FirstSummary(rows, cs[i].id))
  {
    ActivityMapMeans(rows);
    TallySum(stages);
    TallyCounts(stages);
    if cs[i].id !in ActivityMap(rows) {
      CountAbsent(ContactIds(rows), cs[i].id);
    }
  }
}
