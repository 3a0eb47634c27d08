/**
 * Turning field specification tables into column records
 * (document_parser.py, `parse_document`, `_parse_table_to_columns`,
 * `_parse_row_to_column`): each data row becomes a column whose id is the
 * table's start id plus the row's offset, and each table starts one past
 * the number of columns the earlier tables produced.
 */
module DocumentAssembly {
  import opened Wrappers
  import opened Strings
  import opened ColumnTypes
  import opened TableShapes
  import opened ClassificationMap

  /** The parsed part of a `ColumnSchema` (the enrichment fields are not modelled). */
  datatype Column = Column(
    columnId: int,
    columnName: string,
    description: string,
    typeInfo: TypeInfo,
    nullable: bool,
    notes: string,
    flags: Flags)

  /** What becomes of one data row: skipped (no name), a column, or dropped by the exception handler. */
  datatype RowOutcome = Skipped | Parsed(column: Column) | Failed(error: string)

  // ---------------------------------------------------------------------
  // _parse_row_to_column
  // ---------------------------------------------------------------------

  /** `col_indices.get(role, default)`. */
  function ArgFor(colIndices: map<Role, nat>, role: Role, default: IndexArg): (a: IndexArg)
    ensures role in colIndices ==> a == Index(colIndices[role])
    ensures role !in colIndices ==> a == default
  {
    if role in colIndices then Index(colIndices[role]) else default
  }

  /** The column of a row with a name, once every cell has been read. */
  function BuildColumn(columnId: int, columnName: string, description: string, dataTypeRaw: string,
                       nullableRaw: string, notes: string, classificationMap: map<string, Flags>): (c: Column)
    ensures c.columnName in classificationMap ==> c.flags == classificationMap[c.columnName]
    ensures c.columnName !in classificationMap ==> ExactlyOne(c.flags)
    ensures c.description != []
    ensures c.columnId == columnId && c.columnName == columnName
  {
    var flags := if columnName in classificationMap then classificationMap[columnName]
                 else ClassifyFieldByName(columnName, description);
    Column(columnId, columnName, if description == [] then "No description provided" else description,
           ParseDataType(dataTypeRaw), ParseNullable(nullableRaw), notes, flags)
  }

  /**
   * `_parse_row_to_column`. The description, type and notes lookups default
   * to `''` and the nullable lookup to `'Y'`: when the header has no such
   * column, `_get_cell_text` compares that string with an int and raises.
   */
  function ParseRowToColumn(row: seq<string>, colIndices: map<Role, nat>, classificationMap: map<string, Flags>, columnId: int): (r: RowOutcome)
    ensures r.Parsed? ==> r.column.columnId == columnId && r.column.columnName != []
    ensures r.Parsed? ==> HasName(row, colIndices) && r.column.columnName == Strip(row[colIndices[FieldName]])
    ensures r.Parsed? && r.column.columnName in classificationMap ==> r.column.flags == classificationMap[r.column.columnName]
    ensures r.Parsed? && r.column.columnName !in classificationMap ==> ExactlyOne(r.column.flags)
    ensures r.Skipped? <==> !HasName(row, colIndices)
    ensures r.Parsed? <==> HasName(row, colIndices) && HasAllRoles(colIndices)
  {
    var name := GetCellText(row, ArgFor(colIndices, FieldName, NoIndex));
    if name.Err? || name.value == [] then Skipped
    else
      var description := GetCellText(row, ArgFor(colIndices, Description, TextDefault("")));
      var dataTypeRaw := GetCellText(row, ArgFor(colIndices, DataType, TextDefault("")));
      var nullableRaw := GetCellText(row, ArgFor(colIndices, NullableFlag, TextDefault("Y")));
      var notes := GetCellText(row, ArgFor(colIndices, Notes, TextDefault("")));
      if description.Err? then Failed(description.error)
      else if dataTypeRaw.Err? then Failed(dataTypeRaw.error)
      else if nullableRaw.Err? then Failed(nullableRaw.error)
      else if notes.Err? then Failed(notes.error)
      else Parsed(BuildColumn(columnId, name.value, description.value, dataTypeRaw.value, nullableRaw.value,
                              notes.value, classificationMap))
  }

  /** The header roles a row needs besides its name. */
  predicate HasAllRoles(colIndices: map<Role, nat>) {
    Description in colIndices && DataType in colIndices && NullableFlag in colIndices && Notes in colIndices
  }

  /** A row has a name when the header has a field-name column and the row's cell there is not blank. */
  predicate HasName(row: seq<string>, colIndices: map<Role, nat>) {
    FieldName in colIndices && colIndices[FieldName] < |row| && Strip(row[colIndices[FieldName]]) != []
  }

  // ---------------------------------------------------------------------
  // _parse_table_to_columns
  // ---------------------------------------------------------------------

  /** The outcome of every data row (all rows but the first), the first one getting id `start`. */
  function RowOutcomes(rows: seq<seq<string>>, colIndices: map<Role, nat>, classificationMap: map<string, Flags>, start: int): (r: seq<RowOutcome>)
    requires |rows| > 0
    ensures |r| == |rows| - 1
    ensures forall j :: 0 <= j < |r| ==> r[j] == ParseRowToColumn(rows[j + 1], colIndices, classificationMap, start + j)
  {
    seq(|rows| - 1, j requires 0 <= j < |rows| - 1 => ParseRowToColumn(rows[j + 1], colIndices, classificationMap, start + j))
  }

  /** The columns of the parsed rows, in row order. */
  function ParsedColumns(outcomes: seq<RowOutcome>): (r: seq<Column>)
    ensures |r| <= |outcomes|
  {
    if |outcomes| == 0 then []
    else
      var prev := ParsedColumns(outcomes[..|outcomes| - 1]);
      match outcomes[|outcomes| - 1]
      case Parsed(c) => prev + [c]
      case _ => prev
  }

  lemma ParsedColumnsStep(outcomes: seq<RowOutcome>, k: nat)
    requires k < |outcomes|
    ensures ParsedColumns(outcomes[..k + 1])
         == ParsedColumns(outcomes[..k]) + (if outcomes[k].Parsed? then [outcomes[k].column] else [])
  {
    assert outcomes[..k + 1][..k] == outcomes[..k];
  }

  /**
   * The columns of a table whose first data row gets id `start` (a table
   * without rows, which `_parse_table_to_columns` is never given, has none).
   */
  function TableColumns(t: RawTable, classificationMap: map<string, Flags>, start: int): seq<Column> {
    if |t.rows| == 0 then [] else ParsedColumns(RowOutcomes(t.rows, RoleMap(t.rows[0]), classificationMap, start))
  }

  /** The data-row loop of `_parse_table_to_columns`, with its `try`/`except`. */
  method ParseRows(rows: seq<seq<string>>, colIndices: map<Role, nat>, classificationMap: map<string, Flags>, startColumnId: int)
    returns (columns: seq<Column>)
    requires |rows| > 0
    ensures columns == ParsedColumns(RowOutcomes(rows, colIndices, classificationMap, startColumnId))
  {
    columns := [];
    ghost var outcomes := RowOutcomes(rows, colIndices, classificationMap, startColumnId);
    var rowIdx := 1;
    while rowIdx < |rows|
      invariant 1 <= rowIdx <= |rows|
      invariant columns == ParsedColumns(outcomes[..rowIdx - 1])
    {
      ParsedColumnsStep(outcomes, rowIdx - 1);
      var outcome := ParseRowToColumn(rows[rowIdx], colIndices, classificationMap, startColumnId + rowIdx - 1);
      assert outcome == outcomes[rowIdx - 1];
      match outcome {
        case Parsed(column) => columns := columns + [column];
        case Skipped =>
        case Failed(_) =>
      }
      rowIdx := rowIdx + 1;
    }
    assert outcomes[..rowIdx - 1] == outcomes;
  }

  /** `_parse_table_to_columns`: the header roles, then the data rows. */
  method ParseTableToColumns(t: RawTable, classificationMap: map<string, Flags>, tableIdx: nat, startColumnId: int)
    returns (columns: seq<Column>)
    requires |t.rows| > 0
    ensures columns == TableColumns(t, classificationMap, startColumnId)
  {
    var colIndices := IdentifyColumnIndices(t.rows[0]);
    columns := ParseRows(t.rows, colIndices, classificationMap, startColumnId);
  }

  // ---------------------------------------------------------------------
  // parse_document
  // ---------------------------------------------------------------------

  /** `_extract_field_specification_tables`: the field specification tables, in order. */
  function FieldSpecTables(tables: seq<RawTable>): (r: seq<RawTable>)
    ensures |r| <= |tables|
    ensures forall k :: 0 <= k < |r| ==> IsFieldSpecificationTable(r[k]) && |r[k].rows| >= 2
  {
    if |tables| == 0 then []
    else
      var last := |tables| - 1;
      var prev := FieldSpecTables(tables[..last]);
      if IsFieldSpecificationTable(tables[last]) then prev + [tables[last]] else prev
  }

  /** One more table extends the field tables by that table when it is a field specification table. */
  lemma FieldSpecTablesStep(tables: seq<RawTable>, i: nat)
    requires i < |tables|
    ensures FieldSpecTables(tables[..i + 1])
            == FieldSpecTables(tables[..i]) + if IsFieldSpecificationTable(tables[i]) then [tables[i]] else []
  {
    assert tables[..i + 1][..i] == tables[..i];
  }

  /** `_extract_field_specification_tables`: the loop over the document's tables. */
  method ExtractFieldSpecificationTables(tables: seq<RawTable>) returns (fieldTables: seq<RawTable>)
    ensures fieldTables == FieldSpecTables(tables)
  {
    fieldTables := [];
    var i := 0;
    while i < |tables|
      invariant 0 <= i <= |tables|
      invariant fieldTables == FieldSpecTables(tables[..i])
    {
      FieldSpecTablesStep(tables, i);
      if IsFieldSpecificationTable(tables[i]) {
        fieldTables := fieldTables + [tables[i]];
      }
      i := i + 1;
    }
    assert tables[..i] == tables;
  }

  predicate NonEmpty(tables: seq<RawTable>) {
    forall k :: 0 <= k < |tables| ==> |tables[k].rows| > 0
  }

  /** The columns of the tables in order; each table starts one past the columns the tables before it produced. */
  function ColumnsOf(tables: seq<RawTable>, classificationMap: map<string, Flags>): seq<Column> {
    if |tables| == 0 then []
    else
      var prev := ColumnsOf(tables[..|tables| - 1], classificationMap);
      prev + TableColumns(tables[|tables| - 1], classificationMap, 1 + |prev|)
  }

  /** The columns `parse_document` extracts from a document with tables `tables`. */
  function DocumentColumns(tables: seq<RawTable>): seq<Column> {
    ColumnsOf(FieldSpecTables(tables), ClassificationOfTables(tables))
  }

  /** The columns of one more table follow the columns so far, numbered on from them. */
  lemma ColumnsOfStep(tables: seq<RawTable>, classificationMap: map<string, Flags>, k: nat,
                      prev: seq<Column>, next: seq<Column>)
    requires k < |tables|
    requires prev == ColumnsOf(tables[..k], classificationMap)
    requires next == TableColumns(tables[k], classificationMap, 1 + |prev|)
    ensures ColumnsOf(tables[..k + 1], classificationMap) == prev + next
  {
    assert tables[..k + 1][..k] == tables[..k];
  }

  /** The table loop of `parse_document`: a running column counter threads the start ids. */
  method ParseFieldTables(fieldTables: seq<RawTable>, classificationMap: map<string, Flags>) returns (columns: seq<Column>)
    requires NonEmpty(fieldTables)
    ensures columns == ColumnsOf(fieldTables, classificationMap)
  {
    columns := [];
    var columnCounter := 1;
    var tableIdx := 0;
    while tableIdx < |fieldTables|
      invariant 0 <= tableIdx <= |fieldTables|
      invariant columns == ColumnsOf(fieldTables[..tableIdx], classificationMap)
      invariant columnCounter == 1 + |columns|
    {
      var tableColumns := ParseTableToColumns(fieldTables[tableIdx], classificationMap, tableIdx + 1, columnCounter);
      ColumnsOfStep(fieldTables, classificationMap, tableIdx, columns, tableColumns);
      columns := columns + tableColumns;
      columnCounter := columnCounter + |tableColumns|;
      tableIdx := tableIdx + 1;
    }
    assert fieldTables[..tableIdx] == fieldTables;
  }

  /** `parse_document`, without the document information and the schema wrapper. */
  method ParseDocument(tables: seq<RawTable>) returns (columns: seq<Column>)
    ensures columns == DocumentColumns(tables)
  {
    var fieldTables := ExtractFieldSpecificationTables(tables);
    var classificationMap := ExtractClassificationTables(tables);
    columns := ParseFieldTables(fieldTables, classificationMap);
  }

  /** A table is kept exactly when it is one of the document's field specification tables. */
  lemma {:induction false} FieldSpecTablesMembers(tables: seq<RawTable>, t: RawTable)
    ensures t in FieldSpecTables(tables) <==> t in tables && IsFieldSpecificationTable(t)
  {
    if |tables| > 0 {
      var last := |tables| - 1;
      FieldSpecTablesMembers(tables[..last], t);
      assert tables == tables[..last] + [tables[last]];
    }
  }
}
