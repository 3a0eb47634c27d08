/**
 * The column ids `parse_document` hands out (document_parser.py): inside a
 * table a row's id is the table's start plus the row's offset, counting
 * every data row, while the next table starts one past the number of
 * columns actually produced. Ids are therefore increasing within a table,
 * consecutive when every row parses, and can repeat when a row is skipped.
 */
module ColumnIds {
  import opened Wrappers
  import opened Strings
  import opened ColumnTypes
  import opened TableShapes
  import opened ClassificationMap
  import opened DocumentAssembly

  /** Every parsed outcome at offset `j` carries id `start + j`: ids count every data row. */
  predicate IdsFollowRows(outcomes: seq<RowOutcome>, start: int) {
    forall j :: 0 <= j < |outcomes| && outcomes[j].Parsed? ==> outcomes[j].column.columnId == start + j
  }

  lemma RowOutcomesFollowRows(rows: seq<seq<string>>, colIndices: map<Role, nat>, classificationMap: map<string, Flags>, start: int)
    requires |rows| > 0
    ensures IdsFollowRows(RowOutcomes(rows, colIndices, classificationMap, start), start)
  {
  }

  /** The ids of the parsed rows lie in `[start, start + |outcomes|)` and strictly increase. */
  lemma {:induction false} ParsedIdsIncrease(outcomes: seq<RowOutcome>, start: int)
    requires IdsFollowRows(outcomes, start)
    ensures forall k :: 0 <= k < |ParsedColumns(outcomes)| ==>
      start <= ParsedColumns(outcomes)[k].columnId < start + |outcomes|
    ensures forall k, l :: 0 <= k < l < |ParsedColumns(outcomes)| ==>
      ParsedColumns(outcomes)[k].columnId < ParsedColumns(outcomes)[l].columnId
  {
    if |outcomes| > 0 {
      var n := |outcomes| - 1;
      assert IdsFollowRows(outcomes[..n], start) by {
        forall j | 0 <= j < n && outcomes[..n][j].Parsed?
          ensures outcomes[..n][j].column.columnId == start + j
        {
          assert outcomes[..n][j] == outcomes[j];
        }
      }
      ParsedIdsIncrease(outcomes[..n], start);
    }
  }

  /** When every data row is parsed, the ids are exactly `start, start + 1, ...`. */
  lemma {:induction false} AllParsedIds(outcomes: seq<RowOutcome>, start: int)
    requires IdsFollowRows(outcomes, start)
    requires forall j :: 0 <= j < |outcomes| ==> outcomes[j].Parsed?
    ensures |ParsedColumns(outcomes)| == |outcomes|
    ensures forall k :: 0 <= k < |outcomes| ==> ParsedColumns(outcomes)[k].columnId == start + k
  {
    if |outcomes| > 0 {
      var n := |outcomes| - 1;
      assert forall j :: 0 <= j < n ==> outcomes[..n][j] == outcomes[j];
      AllParsedIds(outcomes[..n], start);
    }
  }

  /** Outcomes none of which is parsed give no columns. */
  lemma {:induction false} NoneParsed(outcomes: seq<RowOutcome>)
    requires forall j :: 0 <= j < |outcomes| ==> !outcomes[j].Parsed?
    ensures ParsedColumns(outcomes) == []
  {
    if |outcomes| > 0 {
      var n := |outcomes| - 1;
      assert forall j :: 0 <= j < n ==> outcomes[..n][j] == outcomes[j];
      NoneParsed(outcomes[..n]);
    }
  }

  /** A table yields ids within its own block `[start, start + data rows)`, in increasing order. */
  lemma TableColumnIds(t: RawTable, classificationMap: map<string, Flags>, start: int)
    requires |t.rows| > 0
    ensures forall k :: 0 <= k < |TableColumns(t, classificationMap, start)| ==>
      start <= TableColumns(t, classificationMap, start)[k].columnId < start + |t.rows| - 1
    ensures forall k, l :: 0 <= k < l < |TableColumns(t, classificationMap, start)| ==>
      TableColumns(t, classificationMap, start)[k].columnId < TableColumns(t, classificationMap, start)[l].columnId
  {
    RowOutcomesFollowRows(t.rows, RoleMap(t.rows[0]), classificationMap, start);
    ParsedIdsIncrease(RowOutcomes(t.rows, RoleMap(t.rows[0]), classificationMap, start), start);
  }

  /** Every data row has a name and the header maps all five roles. */
  predicate AllRowsParse(rows: seq<seq<string>>, colIndices: map<Role, nat>) {
    HasAllRoles(colIndices) && forall j :: 1 <= j < |rows| ==> HasName(rows[j], colIndices)
  }

  /** Rows that all parse yield one column per data row, numbered from `start`. */
  lemma RowsAllParse(rows: seq<seq<string>>, colIndices: map<Role, nat>, classificationMap: map<string, Flags>, start: int)
    requires |rows| > 0 && AllRowsParse(rows, colIndices)
    ensures |ParsedColumns(RowOutcomes(rows, colIndices, classificationMap, start))| == |rows| - 1
    ensures forall k :: 0 <= k < |rows| - 1 ==> ParsedColumns(RowOutcomes(rows, colIndices, classificationMap, start))[k].columnId == start + k
  {
    var outcomes := RowOutcomes(rows, colIndices, classificationMap, start);
    forall j | 0 <= j < |outcomes|
      ensures outcomes[j].Parsed?
    {
      assert HasName(rows[j + 1], colIndices);
    }
    RowOutcomesFollowRows(rows, colIndices, classificationMap, start);
    AllParsedIds(outcomes, start);
  }

  /** Every data row of the table parses under the table's header roles. */
  predicate TableParses(t: RawTable) {
    |t.rows| > 0 && AllRowsParse(t.rows, RoleMap(t.rows[0]))
  }

  /** A table whose every row parses yields one column per data row, numbered from `start`. */
  lemma TableColumnsWhenAllParse(t: RawTable, classificationMap: map<string, Flags>, start: int)
    requires TableParses(t)
    ensures |TableColumns(t, classificationMap, start)| == |t.rows| - 1
    ensures forall k :: 0 <= k < |t.rows| - 1 ==> TableColumns(t, classificationMap, start)[k].columnId == start + k
  {
    RowsAllParse(t.rows, RoleMap(t.rows[0]), classificationMap, start);
  }

  /** Rows read under a header that lacks a description, data type, nullable or notes column yield no columns. */
  lemma RowsWithoutAllRoles(rows: seq<seq<string>>, colIndices: map<Role, nat>, classificationMap: map<string, Flags>, start: int)
    requires |rows| > 0 && !HasAllRoles(colIndices)
    ensures ParsedColumns(RowOutcomes(rows, colIndices, classificationMap, start)) == []
  {
    NoneParsed(RowOutcomes(rows, colIndices, classificationMap, start));
  }

  lemma TableWithoutAllRolesIsEmpty(t: RawTable, classificationMap: map<string, Flags>, start: int)
    requires |t.rows| > 0 && !HasAllRoles(RoleMap(t.rows[0]))
    ensures TableColumns(t, classificationMap, start) == []
  {
    RowsWithoutAllRoles(t.rows, RoleMap(t.rows[0]), classificationMap, start);
  }

  /**
   * The tables' columns in order, where `tableColumns(t, start)` numbers
   * table `t`'s columns from `start`: the counter threading of
   * `parse_document` with the per-table parse left abstract.
   */
  function Threaded(tables: seq<RawTable>, tableColumns: (RawTable, int) -> seq<Column>): seq<Column> {
    if |tables| == 0 then []
    else
      var prev := Threaded(tables[..|tables| - 1], tableColumns);
      prev + tableColumns(tables[|tables| - 1], 1 + |prev|)
  }

  /** `_parse_table_to_columns` against one classification map. */
  function TableParser(classificationMap: map<string, Flags>): (RawTable, int) -> seq<Column> {
    (t, start) => TableColumns(t, classificationMap, start)
  }

  /** The document's columns are the threading of `_parse_table_to_columns`. */
  lemma {:induction false} ColumnsOfIsThreaded(tables: seq<RawTable>, classificationMap: map<string, Flags>)
    ensures ColumnsOf(tables, classificationMap) == Threaded(tables, TableParser(classificationMap))
  {
    if |tables| > 0 {
      ColumnsOfIsThreaded(tables[..|tables| - 1], classificationMap);
    }
  }

  /** The ids of `columns` are `start, start + 1, ...`. */
  predicate NumberedFrom(columns: seq<Column>, start: int) {
    forall k :: 0 <= k < |columns| ==> columns[k].columnId == start + k
  }

  /** Total data rows of the tables. */
  function DataRows(tables: seq<RawTable>): nat {
    if |tables| == 0 then 0
    else DataRows(tables[..|tables| - 1]) + (if |tables[|tables| - 1].rows| == 0 then 0 else |tables[|tables| - 1].rows| - 1)
  }

  /**
   * When every table yields one column per data row, numbered from its
   * start, the threaded ids are exactly `1..N`.
   */
  lemma {:induction false} ThreadedIdsConsecutive(tables: seq<RawTable>, tableColumns: (RawTable, int) -> seq<Column>)
    requires forall i, start :: 0 <= i < |tables| ==> NumberedFrom(tableColumns(tables[i], start), start)
    requires forall i, start :: 0 <= i < |tables| ==> |tableColumns(tables[i], start)| == |tables[i].rows| - 1
    ensures |Threaded(tables, tableColumns)| == DataRows(tables)
    ensures NumberedFrom(Threaded(tables, tableColumns), 1)
  {
    if |tables| > 0 {
      var n := |tables| - 1;
      assert forall i :: 0 <= i < n ==> tables[..n][i] == tables[i];
      ThreadedIdsConsecutive(tables[..n], tableColumns);
      var prev := Threaded(tables[..n], tableColumns);
      var last := tableColumns(tables[n], 1 + |prev|);
      assert NumberedFrom(last, 1 + |prev|);
      assert |tables[n].rows| > 0 by {
        assert |last| == |tables[n].rows| - 1;
      }
    }
  }

  /** When every row of every table parses, the document's ids are exactly 1..N in traversal order. */
  lemma IdsConsecutiveWhenAllParse(tables: seq<RawTable>, classificationMap: map<string, Flags>)
    requires forall i :: 0 <= i < |tables| ==> TableParses(tables[i])
    ensures |ColumnsOf(tables, classificationMap)| == DataRows(tables)
    ensures NumberedFrom(ColumnsOf(tables, classificationMap), 1)
  {
    var f := TableParser(classificationMap);
    forall i, start | 0 <= i < |tables|
      ensures NumberedFrom(f(tables[i], start), start) && |f(tables[i], start)| == |tables[i].rows| - 1
    {
      TableColumnsWhenAllParse(tables[i], classificationMap, start);
    }
    ThreadedIdsConsecutive(tables, f);
    ColumnsOfIsThreaded(tables, classificationMap);
  }

  /** Three rows whose first data row has no name and whose second parses: one column, with id `start + 1`. */
  lemma SkipThenParse(rows: seq<seq<string>>, colIndices: map<Role, nat>, classificationMap: map<string, Flags>, start: int)
    requires |rows| == 3 && HasAllRoles(colIndices)
    requires !HasName(rows[1], colIndices) && HasName(rows[2], colIndices)
    ensures |ParsedColumns(RowOutcomes(rows, colIndices, classificationMap, start))| == 1
    ensures ParsedColumns(RowOutcomes(rows, colIndices, classificationMap, start))[0].columnId == start + 1
  {
    var outcomes := RowOutcomes(rows, colIndices, classificationMap, start);
    assert !outcomes[0].Parsed? by {
      assert outcomes[0] == ParseRowToColumn(rows[1], colIndices, classificationMap, start);
    }
    assert outcomes[1].Parsed? && outcomes[1].column.columnId == start + 1 by {
      assert outcomes[1] == ParseRowToColumn(rows[2], colIndices, classificationMap, start + 1);
    }
    SecondOfTwoParses(outcomes);
  }

  /** Of two outcomes where only the second parses, the columns are that one column. */
  lemma SecondOfTwoParses(outcomes: seq<RowOutcome>)
    requires |outcomes| == 2 && !outcomes[0].Parsed? && outcomes[1].Parsed?
    ensures ParsedColumns(outcomes) == [outcomes[1].column]
  {
    ParsedColumnsStep(outcomes, 0);
    ParsedColumnsStep(outcomes, 1);
    assert outcomes[..0] == [];
    assert outcomes[..2] == outcomes;
  }

  /** Rows whose first data row parses: the first column has id `start`. */
  lemma FirstRowParses(rows: seq<seq<string>>, colIndices: map<Role, nat>, classificationMap: map<string, Flags>, start: int)
    requires |rows| > 1 && HasAllRoles(colIndices) && HasName(rows[1], colIndices)
    ensures |ParsedColumns(RowOutcomes(rows, colIndices, classificationMap, start))| >= 1
    ensures ParsedColumns(RowOutcomes(rows, colIndices, classificationMap, start))[0].columnId == start
  {
    var outcomes := RowOutcomes(rows, colIndices, classificationMap, start);
    assert outcomes[0].Parsed? && outcomes[0].column.columnId == start by {
      assert outcomes[0] == ParseRowToColumn(rows[1], colIndices, classificationMap, start);
    }
    FirstOutcomeParses(outcomes);
  }

  /** When the first outcome parses, its column comes first. */
  lemma FirstOutcomeParses(outcomes: seq<RowOutcome>)
    requires |outcomes| > 0 && outcomes[0].Parsed?
    ensures |ParsedColumns(outcomes)| >= 1 && ParsedColumns(outcomes)[0] == outcomes[0].column
  {
    ParsedColumnsStep(outcomes, 0);
    assert outcomes[..0] == [];
    ParsedColumnsPrefix(outcomes, 1);
  }

  /** The table's header maps all five roles. */
  predicate HeaderComplete(t: RawTable)
    requires |t.rows| > 0
  {
    HasAllRoles(RoleMap(t.rows[0]))
  }

  /** Data row `j` of the table has a name under the table's header roles. */
  predicate RowNamed(t: RawTable, j: nat)
    requires 0 < j < |t.rows|
  {
    HasName(t.rows[j], RoleMap(t.rows[0]))
  }

  /**
   * A skipped row still uses up an id inside its table but does not advance
   * the next table's start: with a first table whose first data row has no
   * name and whose second row parses, and a second table whose first data
   * row parses, the first two columns both get id 2.
   */
  lemma SkippedRowRepeatsId(tables: seq<RawTable>, classificationMap: map<string, Flags>)
    requires |tables| == 2 && |tables[0].rows| == 3 && |tables[1].rows| > 1
    requires HeaderComplete(tables[0]) && !RowNamed(tables[0], 1) && RowNamed(tables[0], 2)
    requires HeaderComplete(tables[1]) && RowNamed(tables[1], 1)
    ensures |ColumnsOf(tables, classificationMap)| >= 2
    ensures ColumnsOf(tables, classificationMap)[0].columnId == 2
    ensures ColumnsOf(tables, classificationMap)[1].columnId == 2
  {
    var f := TableParser(classificationMap);
    TableSkipThenParse(tables[0], classificationMap, 1);
    TableFirstRowParses(tables[1], classificationMap, 2);
    assert f(tables[0], 1) == TableColumns(tables[0], classificationMap, 1);
    assert f(tables[1], 2) == TableColumns(tables[1], classificationMap, 2);
    ThreadedFirstTwo(tables, f);
    ColumnsOfIsThreaded(tables, classificationMap);
  }

  lemma TableSkipThenParse(t: RawTable, classificationMap: map<string, Flags>, start: int)
    requires |t.rows| == 3 && HeaderComplete(t) && !RowNamed(t, 1) && RowNamed(t, 2)
    ensures |TableColumns(t, classificationMap, start)| == 1
    ensures TableColumns(t, classificationMap, start)[0].columnId == start + 1
  {
    SkipThenParse(t.rows, RoleMap(t.rows[0]), classificationMap, start);
  }

  lemma TableFirstRowParses(t: RawTable, classificationMap: map<string, Flags>, start: int)
    requires |t.rows| > 1 && HeaderComplete(t) && RowNamed(t, 1)
    ensures |TableColumns(t, classificationMap, start)| >= 1
    ensures TableColumns(t, classificationMap, start)[0].columnId == start
  {
    FirstRowParses(t.rows, RoleMap(t.rows[0]), classificationMap, start);
  }

  /** Two tables, the first yielding one column: the second starts at 2. */
  lemma ThreadedFirstTwo(tables: seq<RawTable>, tableColumns: (RawTable, int) -> seq<Column>)
    requires |tables| == 2 && |tableColumns(tables[0], 1)| == 1 && |tableColumns(tables[1], 2)| >= 1
    ensures |Threaded(tables, tableColumns)| >= 2
    ensures Threaded(tables, tableColumns)[0] == tableColumns(tables[0], 1)[0]
    ensures Threaded(tables, tableColumns)[1] == tableColumns(tables[1], 2)[0]
  {
    assert tables[..2] == tables;
    assert tables[..1][..0] == [];
    assert tables[..1][0] == tables[0];
    assert Threaded(tables[..1][..0], tableColumns) == [];
    assert Threaded(tables[..1], tableColumns) == tableColumns(tables[0], 1);
  }

  /** The columns of a prefix of the outcomes are a prefix of the columns. */
  lemma {:induction false} ParsedColumnsPrefix(outcomes: seq<RowOutcome>, k: nat)
    requires k <= |outcomes|
    ensures ParsedColumns(outcomes[..k]) <= ParsedColumns(outcomes)
  {
    if k < |outcomes| {
      var n := |outcomes| - 1;
      assert outcomes[..n][..k] == outcomes[..k];
      ParsedColumnsPrefix(outcomes[..n], k);
      assert outcomes[..n + 1] == outcomes;
    } else {
      assert outcomes[..k] == outcomes;
    }
  }

}
