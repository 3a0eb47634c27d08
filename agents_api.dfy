// The agent routes: how `submit_feedback` stages a human's feedback (applying
// an update command to a column of the parsed document in place) and how
// `get_thread_status` names the state of a thread.

module AgentsApi {
  import opened Wrappers
  import opened Scans
  import opened FeedbackParser
  import opened MetadataApi
  import Supervisor

  /**
   * `col.get("column_id") == column_id` with Python's equality: a missing key
   * reads as None, and True and False equal 1 and 0.
   */
  predicate IdMatches(c: Column, id: int) {
    "column_id" in c &&
    match c["column_id"]
    case JInt(i) => i == id
    case JBool(b) => (if b then 1 else 0) == id
    case _ => false
  }

  /** Where a column's id matches, scanning the tables in order and each table's columns in order. */
  function FirstMatch(tables: seq<Table>, id: int): (r: Option<(nat, nat)>)
    ensures r.Some? ==> r.value.0 < |tables| && r.value.1 < |tables[r.value.0].columns|
                        && IdMatches(tables[r.value.0].columns[r.value.1], id)
    ensures r.Some? ==> forall t, c :: 0 <= t < |tables| && 0 <= c < |tables[t].columns|
                                       && (t < r.value.0 || (t == r.value.0 && c < r.value.1))
                                       ==> !IdMatches(tables[t].columns[c], id)
    ensures r.None? <==> forall t, c :: 0 <= t < |tables| && 0 <= c < |tables[t].columns|
                                        ==> !IdMatches(tables[t].columns[c], id)
  {
    if |tables| == 0 then None
    else
      match FirstWhere(tables[0].columns, (c: Column) => IdMatches(c, id))
      case Some(c) => Some((0, c))
      case None =>
        match FirstMatch(tables[1..], id)
        case None => None
        case Some(p) => Some((p.0 + 1, p.1))
  }

  /**
   * The tables after `col[field] = value` on the first matching column, and
   * that column as updated (None when no column matches).
   */
  function Updated(tables: seq<Table>, id: int, field: string, value: Json): (seq<Table>, Option<Column>) {
    match FirstMatch(tables, id)
    case None => (tables, None)
    case Some((t, c)) =>
      var col := tables[t].columns[c][field := value];
      (tables[t := tables[t].(columns := tables[t].columns[c := col])], Some(col))
  }

  /**
   * The update touches one column, the first whose id matches, and sets only
   * `field` in it; without a match nothing changes.
   */
  lemma UpdateTouchesOneColumn(tables: seq<Table>, id: int, field: string, value: Json)
    ensures var (after, col) := Updated(tables, id, field, value);
            |after| == |tables|
            && (forall t :: 0 <= t < |tables| ==>
                  after[t].tableName == tables[t].tableName && |after[t].columns| == |tables[t].columns|)
            && (col.None? <==> forall t, c :: 0 <= t < |tables| && 0 <= c < |tables[t].columns|
                                              ==> !IdMatches(tables[t].columns[c], id))
            && (col.None? ==> after == tables)
            && (col.Some? ==>
                  exists t, c :: 0 <= t < |tables| && 0 <= c < |tables[t].columns|
                                 && IdMatches(tables[t].columns[c], id)
                                 && col.value == tables[t].columns[c][field := value]
                                 && after[t].columns[c] == col.value
                                 && forall u, d :: 0 <= u < |tables| && 0 <= d < |tables[u].columns|
                                                   && (u, d) != (t, c)
                                                   ==> after[u].columns[d] == tables[u].columns[d])
  {
    var (after, col) := Updated(tables, id, field, value);
    match FirstMatch(tables, id)
    case None =>
    case Some((t, c)) =>
      forall u, d | 0 <= u < |tables| && 0 <= d < |tables[u].columns| && (u, d) != (t, c)
        ensures after[u].columns[d] == tables[u].columns[d]
      {
      }
      assert after[t].columns[c] == col.value;
  }

  /** The parsed document held in the thread's state; its tables are shared and updated in place. */
  class DocParseResult {
    var tables: seq<Table>

    constructor (tables: seq<Table>)
      ensures this.tables == tables
    {
      this.tables := tables;
    }

    /** The nested search-and-update loop of `submit_feedback`. */
    method ApplyUpdate(columnId: int, field: string, value: Json) returns (updatedColumn: Option<Column>)
      modifies this
      ensures (tables, updatedColumn) == Updated(old(tables), columnId, field, value)
    {
      updatedColumn := None;
      var t := 0;
      while t < |tables|
        invariant 0 <= t <= |tables|
        invariant tables == old(tables) && updatedColumn.None?
        invariant forall u, d :: 0 <= u < t && 0 <= d < |tables[u].columns|
                                 ==> !IdMatches(tables[u].columns[d], columnId)
      {
        var columns := tables[t].columns;
        var c := 0;
        while c < |columns|
          invariant 0 <= c <= |columns|
          invariant tables == old(tables) && updatedColumn.None?
          invariant forall d :: 0 <= d < c ==> !IdMatches(columns[d], columnId)
        {
          if IdMatches(columns[c], columnId) {
            assert FirstMatch(tables, columnId) == Some((t, c));
            var col := columns[c][field := value];
            tables := tables[t := tables[t].(columns := columns[c := col])];
            updatedColumn := Some(col);
            return;
          }
          c := c + 1;
        }
        t := t + 1;
      }
    }
  }

  /** What `submit_feedback` records in the thread's state when it applied an update. */
  datatype AppliedUpdate = AppliedUpdate(updatedColumn: Option<Column>, command: Command, tables: seq<Table>)

  /** The `update_data` written to the thread's state; None fields are keys left unset. */
  datatype UpdateData = UpdateData(
    feedback: Option<string>, approved: bool, awaitingHumanApproval: bool,
    applied: Option<AppliedUpdate>, shouldEnd: Option<bool>, iterationCount: Option<int>)

  /** The feedback response: the staged data and status, or a failure. */
  datatype Outcome = Resumed(data: UpdateData, status: string, command: Option<Command>) | Failed

  /** The command parsed from feedback, tried only for non-empty feedback that does not approve. */
  function UpdateCommand(feedback: Option<string>, approved: bool, search: (nat, string) -> Option<Groups>,
                         order: seq<string>, decodeArray: string -> Option<seq<Json>>): (r: Option<Command>)
    ensures r.Some? ==> Supervisor.Truthy(feedback) && !approved
    ensures r.Some? ==> r == ParseCommand(feedback.value, search, order, decodeArray)
  {
    if Supervisor.Truthy(feedback) && !approved then ParseCommand(feedback.value, search, order, decodeArray)
    else None
  }

  /** Plain feedback: no update, not waiting for approval. */
  function Regular(feedback: Option<string>, approved: bool): UpdateData {
    UpdateData(feedback, approved, false, None, None, None)
  }

  /**
   * The `update_data` before the approval branches. With a command, a
   * document whose tables are empty leaves `update_data` unbound, so the
   * request fails (None here).
   */
  function Staged(feedback: Option<string>, approved: bool, command: Option<Command>,
                  docTables: Option<seq<Table>>): Option<UpdateData>
  {
    if command.None? || docTables.None? then Some(Regular(feedback, approved))
    else if |docTables.value| == 0 then None
    else
      var cmd := command.value;
      var (tables, col) := Updated(docTables.value, cmd.columnId, cmd.field, cmd.value);
      Some(UpdateData(feedback, false, true, Some(AppliedUpdate(col, cmd, tables)), Some(false), None))
  }

  /** The status named in the response. */
  function ResponseStatus(command: Option<Command>, approved: bool): string {
    if command.Some? then "awaiting_approval" else if approved then "completed" else "processing"
  }

  /**
   * `submit_feedback` on the thread's `doc_parse_result` tables (None when it
   * has none) and its `iteration_count`.
   */
  function FeedbackOutcome(feedback: Option<string>, approved: bool, docTables: Option<seq<Table>>,
                           iterationCount: int, search: (nat, string) -> Option<Groups>,
                           order: seq<string>, decodeArray: string -> Option<seq<Json>>): (r: Outcome)
    ensures var command := UpdateCommand(feedback, approved, search, order, decodeArray);
            && (r.Failed? <==> command.Some? && docTables == Some([]))
            && (r.Resumed? ==> r.command == command)
            && (r.Resumed? && r.data.applied.Some? <==>
                  Supervisor.Truthy(feedback) && !approved && command.Some?
                  && docTables.Some? && |docTables.value| > 0)
            && (r.Resumed? && r.status == "awaiting_approval" <==> command.Some? && !r.Failed?)
            && (r.Resumed? && r.status == "completed" <==> approved)
            && (approved ==> r.Resumed? && r.data.shouldEnd == Some(true) && r.data.applied.None?)
            && (!approved && command.None? ==>
                  r.Resumed? && r.data.iterationCount == Some(iterationCount + 1) && r.data.shouldEnd.None?)
  {
    var command := UpdateCommand(feedback, approved, search, order, decodeArray);
    match Staged(feedback, approved, command, docTables)
    case None => Failed
    case Some(data) =>
      var data :=
        if approved && command.None? then data.(shouldEnd := Some(true))
        else if !approved && command.None? then data.(iterationCount := Some(iterationCount + 1))
        else data;
      Resumed(data, ResponseStatus(command, approved), command)
  }

  /**
   * The staging step of `submit_feedback`: with a command and a document,
   * apply the update to the document's tables in place.
   */
  method StageUpdate(feedback: Option<string>, approved: bool, command: Option<Command>, doc: DocParseResult?)
    returns (staged: Option<UpdateData>)
    modifies doc
    ensures staged == Staged(feedback, approved, command, if doc == null then None else Some(old(doc.tables)))
    ensures doc != null ==>
              doc.tables == if staged.Some? && staged.value.applied.Some? then staged.value.applied.value.tables
                            else old(doc.tables)
  {
    if command.Some? && doc != null {
      if |doc.tables| == 0 {
        return None;
      }
      var cmd := command.value;
      var updatedColumn := doc.ApplyUpdate(cmd.columnId, cmd.field, cmd.value);
      return Some(UpdateData(feedback, false, true, Some(AppliedUpdate(updatedColumn, cmd, doc.tables)),
                             Some(false), None));
    }
    return Some(Regular(feedback, approved));
  }

  /**
   * `submit_feedback`'s staging of the feedback: parse it, apply an update
   * command to the document's tables in place, and set the approval fields.
   */
  method SubmitFeedback(feedback: Option<string>, approved: bool, doc: DocParseResult?, iterationCount: int,
                        search: (nat, string) -> Option<Groups>, order: seq<string>,
                        decodeArray: string -> Option<seq<Json>>)
    returns (r: Outcome)
    modifies doc
    ensures r == FeedbackOutcome(feedback, approved, if doc == null then None else Some(old(doc.tables)),
                                 iterationCount, search, order, decodeArray)
    ensures doc != null ==>
              doc.tables == if r.Resumed? && r.data.applied.Some? then r.data.applied.value.tables
                            else old(doc.tables)
  {
    var updateCommand: Option<Command> := None;
    if Supervisor.Truthy(feedback) && !approved {
      updateCommand := ParseCommand(feedback.value, search, order, decodeArray);
    }
    var staged := StageUpdate(feedback, approved, updateCommand, doc);
    if staged.None? {
      return Failed;
    }
    var data := staged.value;
    if approved && updateCommand.None? {
      data := data.(shouldEnd := Some(true));
    } else if !approved && updateCommand.None? {
      data := data.(iterationCount := Some(iterationCount + 1));
    }
    return Resumed(data, ResponseStatus(updateCommand, approved), updateCommand);
  }

  /** Python truthiness of a stored value. */
  predicate JsonTruthy(j: Json) {
    match j
    case JNull => false
    case JBool(b) => b
    case JInt(i) => i != 0
    case JStr(s) => |s| > 0
    case JList(xs) => |xs| > 0
    case JObject(m) => |m| > 0
  }

  /** `values.get(key)` is truthy. */
  predicate Flag(values: map<string, Json>, key: string) {
    key in values && JsonTruthy(values[key])
  }

  /** `get_thread_status`: the status a thread's state values report. */
  function ThreadStatus(values: map<string, Json>): (status: string)
    ensures status == "awaiting_approval" <==> Flag(values, "awaiting_human_approval")
    ensures status == "failed" <==> !Flag(values, "awaiting_human_approval") && Flag(values, "error")
    ensures status == "completed" <==>
              !Flag(values, "awaiting_human_approval") && !Flag(values, "error")
              && (Flag(values, "approved") || Flag(values, "should_end"))
    ensures status == "processing" <==>
              !Flag(values, "awaiting_human_approval") && !Flag(values, "error")
              && !Flag(values, "approved") && !Flag(values, "should_end")
  {
    if Flag(values, "awaiting_human_approval") then "awaiting_approval"
    else if Flag(values, "error") then "failed"
    else if Flag(values, "approved") || Flag(values, "should_end") then "completed"
    else "processing"
  }
}
