/**
 * How a specification document's field names are split into header, body
 * and trailer (document_parser.py, `_extract_classification_tables`):
 * collect the specification tables, score every identifier-shaped name in
 * each table's field column, keep the first occurrence of each name, then
 * take the six best header scores as the header, up to three of the best
 * trailer scores as the trailer, and everything else as body.
 */
module ClassificationTables {
  import opened Wrappers
  import opened Strings
  import opened ColumnTypes
  import opened TableShapes
  import opened SectionScores
  import opened StableSort

  /** A specification table and its index among all of the document's tables. */
  datatype SpecTable = SpecTable(tableIdx: nat, table: RawTable)

  /**
   * One identifier-shaped field name found in a specification table: the
   * name, the table's index among all tables, its index among the
   * specification tables and the position the scores are computed from.
   */
  datatype Candidate = Candidate(name: string, tableIdx: nat, specIdx: nat, pos: Position)

  /** A candidate's header, body and trailer scores. */
  function ScoresOfCandidate(c: Candidate): Scores {
    ScoreField(c.name, c.pos)
  }

  /** A candidate's highest score and its provisional section. */
  function MaxScoreOf(c: Candidate): nat {
    MaxScore(ScoresOfCandidate(c))
  }

  function ClassificationOf(c: Candidate): Section {
    Provisional(ScoresOfCandidate(c))
  }

  /** The names of a list of candidates. */
  function NamesIn(cs: seq<Candidate>): set<string> {
    set c | c in cs :: c.name
  }

  predicate DistinctNames(cs: seq<Candidate>) {
    forall i, j :: 0 <= i < j < |cs| ==> cs[i].name != cs[j].name
  }

  // ---------------------------------------------------------------------
  // Step 1: the specification tables
  // ---------------------------------------------------------------------

  /** Which of the document's tables are specification tables. */
  function SpecFlags(tables: seq<RawTable>): (flags: seq<bool>)
    ensures |flags| == |tables|
    ensures forall i :: 0 <= i < |tables| ==> flags[i] == IsSpecificationTable(tables[i])
  {
    seq(|tables|, i requires 0 <= i < |tables| => IsSpecificationTable(tables[i]))
  }

  /** The flagged tables, in document order, with their indices. */
  function Flagged(tables: seq<RawTable>, flags: seq<bool>): (r: seq<SpecTable>)
    requires |flags| == |tables|
    ensures forall k :: 0 <= k < |r| ==>
      r[k].tableIdx < |tables| && tables[r[k].tableIdx] == r[k].table && flags[r[k].tableIdx]
    ensures forall k, l :: 0 <= k < l < |r| ==> r[k].tableIdx < r[l].tableIdx
  {
    if |tables| == 0 then []
    else
      var last := |tables| - 1;
      var prev := Flagged(tables[..last], flags[..last]);
      if flags[last] then prev + [SpecTable(last, tables[last])] else prev
  }

  /** The specification tables among `tables`, in document order, with their indices. */
  function SpecTables(tables: seq<RawTable>): (r: seq<SpecTable>)
    ensures forall k :: 0 <= k < |r| ==>
      r[k].tableIdx < |tables| && tables[r[k].tableIdx] == r[k].table && IsSpecificationTable(r[k].table)
    ensures forall k, l :: 0 <= k < l < |r| ==> r[k].tableIdx < r[l].tableIdx
  {
    Flagged(tables, SpecFlags(tables))
  }

  /** Every flagged table is kept. */
  lemma {:induction false} FlaggedComplete(tables: seq<RawTable>, flags: seq<bool>, i: nat)
    requires |flags| == |tables| && i < |tables| && flags[i]
    ensures exists k :: 0 <= k < |Flagged(tables, flags)| && Flagged(tables, flags)[k].tableIdx == i
  {
    var last := |tables| - 1;
    var prev := Flagged(tables[..last], flags[..last]);
    if i == last {
      assert Flagged(tables, flags)[|prev|].tableIdx == i;
    } else {
      FlaggedComplete(tables[..last], flags[..last], i);
      var k :| 0 <= k < |prev| && prev[k].tableIdx == i;
      assert Flagged(tables, flags)[k] == prev[k];
    }
  }

  /** Every specification table of the document is among the scored tables. */
  lemma SpecTablesComplete(tables: seq<RawTable>, i: nat)
    requires i < |tables| && IsSpecificationTable(tables[i])
    ensures exists k :: 0 <= k < |SpecTables(tables)| && SpecTables(tables)[k].tableIdx == i
  {
    var flags := SpecFlags(tables);
    assert flags[i];
    FlaggedComplete(tables, flags, i);
    assert SpecTables(tables) == Flagged(tables, flags);
  }

  /** Step 1 of the scorer: the loop over the document's tables. */
  method CollectSpecTables(tables: seq<RawTable>) returns (specTables: seq<SpecTable>)
    ensures specTables == SpecTables(tables)
  {
    ghost var flags := SpecFlags(tables);
    specTables := [];
    var i := 0;
    while i < |tables|
      invariant 0 <= i <= |tables|
      invariant specTables == Flagged(tables[..i], flags[..i])
    {
      assert tables[..i + 1][..i] == tables[..i];
      assert flags[..i + 1][..i] == flags[..i];
      if IsSpecificationTable(tables[i]) {
        specTables := specTables + [SpecTable(i, tables[i])];
      }
      i := i + 1;
    }
    assert tables[..i] == tables;
    assert flags[..i] == flags;
  }

  // ---------------------------------------------------------------------
  // Step 2: scored candidates
  // ---------------------------------------------------------------------

  /** The field column of a specification table: the one found by name or shape, else the second column. */
  function FieldColumnFor(t: RawTable): (r: Option<nat>)
    requires |t.rows| > 0
    ensures r.Some? ==> r.value < |t.rows[0]|
    ensures r.None? <==> FindFieldColumn(t).None? && |t.rows[0]| <= 1
  {
    match FindFieldColumn(t)
    case Some(c) => Some(c)
    case None => if |t.rows[0]| > 1 then Some(1) else None
  }

  /** The stripped field cell of a row, if the row has one and it is an identifier-shaped name. */
  function CellName(row: seq<string>, fc: nat): (r: Option<string>)
    ensures r.Some? ==> fc < |row| && r.value == Strip(row[fc]) && IsIdentifier(r.value)
    ensures r.None? ==> fc >= |row| || !IsIdentifier(Strip(row[fc]))
  {
    if fc < |row| then
      var fieldName := Strip(row[fc]);
      if fieldName != [] && IsIdentifier(fieldName) then Some(fieldName) else None
    else None
  }

  /** The field name (or none) of every row of a table. */
  function CellNames(rows: seq<seq<string>>, fc: nat): (names: seq<Option<string>>)
    ensures |names| == |rows|
    ensures forall j :: 0 <= j < |rows| ==> names[j] == CellName(rows[j], fc)
  {
    seq(|rows|, j requires 0 <= j < |rows| => CellName(rows[j], fc))
  }

  /**
   * The candidates of data rows `1 .. n-1` of a table whose rows have the
   * field names `names`, in row order.
   */
  function RowCandidates(names: seq<Option<string>>, tableIdx: nat, specIdx: nat, totalSpec: nat, n: nat): seq<Candidate>
    requires 0 < n <= |names|
  {
    if n == 1 then []
    else
      var prev := RowCandidates(names, tableIdx, specIdx, totalSpec, n - 1);
      match names[n - 1]
      case Some(name) => prev + [Candidate(name, tableIdx, specIdx, Position(n - 1, |names| - 1, specIdx, totalSpec))]
      case None => prev
  }

  /** The candidates of one specification table, in row order. */
  function TableCandidates(st: SpecTable, specIdx: nat, totalSpec: nat): seq<Candidate>
    requires |st.table.rows| > 0
  {
    match FieldColumnFor(st.table)
    case None => []
    case Some(fc) => RowCandidates(CellNames(st.table.rows, fc), st.tableIdx, specIdx, totalSpec, |st.table.rows|)
  }

  predicate NonEmptyTables(spec: seq<SpecTable>) {
    forall k :: 0 <= k < |spec| ==> |spec[k].table.rows| > 0
  }

  /** Every specification table's candidates, in table order. */
  function PerTable(spec: seq<SpecTable>): (r: seq<seq<Candidate>>)
    requires NonEmptyTables(spec)
    ensures |r| == |spec|
    ensures forall k :: 0 <= k < |spec| ==> r[k] == TableCandidates(spec[k], k, |spec|)
  {
    seq(|spec|, k requires 0 <= k < |spec| => TableCandidates(spec[k], k, |spec|))
  }

  /** The lists one after the other. */
  function Concat(xs: seq<seq<Candidate>>): seq<Candidate> {
    if |xs| == 0 then [] else Concat(xs[..|xs| - 1]) + xs[|xs| - 1]
  }

  /** The candidates of all specification tables, in table and row order. */
  function AllCandidates(spec: seq<SpecTable>): seq<Candidate>
    requires NonEmptyTables(spec)
  {
    Concat(PerTable(spec))
  }

  lemma RowCandidatesStep(names: seq<Option<string>>, tableIdx: nat, specIdx: nat, totalSpec: nat, n: nat)
    requires 0 < n < |names|
    ensures RowCandidates(names, tableIdx, specIdx, totalSpec, n + 1)
         == RowCandidates(names, tableIdx, specIdx, totalSpec, n)
          + (if names[n].Some? then [Candidate(names[n].value, tableIdx, specIdx, Position(n, |names| - 1, specIdx, totalSpec))] else [])
  {
  }

  /** The data-row loop of step 2: the candidates of the rows below the header, with field column `fc`. */
  method CollectRowCandidates(st: SpecTable, fc: nat, specIdx: nat, totalSpec: nat) returns (fields: seq<Candidate>)
    requires |st.table.rows| > 0
    ensures fields == RowCandidates(CellNames(st.table.rows, fc), st.tableIdx, specIdx, totalSpec, |st.table.rows|)
  {
    fields := [];
    var rows := st.table.rows;
    var totalRows := |rows| - 1;
    ghost var names := CellNames(rows, fc);
    var rowIdx := 1;
    while rowIdx < |rows|
      invariant 1 <= rowIdx <= |rows|
      invariant fields == RowCandidates(names, st.tableIdx, specIdx, totalSpec, rowIdx)
    {
      var row := rows[rowIdx];
      RowCandidatesStep(names, st.tableIdx, specIdx, totalSpec, rowIdx);
      ghost var cell := CellName(row, fc);
      assert names[rowIdx] == cell;
      if fc < |row| {
        var fieldName := Strip(row[fc]);
        if fieldName != [] && IsIdentifier(fieldName) {
          assert cell == Some(fieldName);
          var candidate := Candidate(fieldName, st.tableIdx, specIdx, Position(rowIdx, totalRows, specIdx, totalSpec));
          assert candidate == Candidate(names[rowIdx].value, st.tableIdx, specIdx, Position(rowIdx, |names| - 1, specIdx, totalSpec));
          fields := fields + [candidate];
        } else {
          assert cell.None?;
        }
      } else {
        assert cell.None?;
      }
      assert fields == RowCandidates(names, st.tableIdx, specIdx, totalSpec, rowIdx + 1);
      rowIdx := rowIdx + 1;
    }
    assert rowIdx == |rows|;
  }

  /** Step 2 for one specification table: find its field column, then scan its rows. */
  method CollectTableCandidates(st: SpecTable, specIdx: nat, totalSpec: nat) returns (fields: seq<Candidate>)
    requires |st.table.rows| > 0
    ensures fields == TableCandidates(st, specIdx, totalSpec)
  {
    var fieldColumn := FieldColumnFor(st.table);
    if fieldColumn.None? {
      return [];
    }
    fields := CollectRowCandidates(st, fieldColumn.value, specIdx, totalSpec);
  }

  /** Step 2 of the scorer: the loop over the specification tables. */
  method CollectCandidates(spec: seq<SpecTable>) returns (allFields: seq<Candidate>)
    requires NonEmptyTables(spec)
    ensures allFields == AllCandidates(spec)
  {
    var totalSpec := |spec|;
    ghost var perTable := PerTable(spec);
    allFields := [];
    var specIdx := 0;
    while specIdx < |spec|
      invariant 0 <= specIdx <= |spec|
      invariant allFields == Concat(perTable[..specIdx])
    {
      assert perTable[..specIdx + 1][..specIdx] == perTable[..specIdx];
      var fields := CollectTableCandidates(spec[specIdx], specIdx, totalSpec);
      allFields := allFields + fields;
      specIdx := specIdx + 1;
    }
    assert perTable[..specIdx] == perTable;
  }

  // ---------------------------------------------------------------------
  // Which names step 2 finds
  // ---------------------------------------------------------------------

  /** `name` is the stripped, identifier-shaped field cell of one of the data rows of `st`. */
  predicate InFieldColumn(st: SpecTable, name: string)
    requires |st.table.rows| > 0
  {
    match FieldColumnFor(st.table)
    case None => false
    case Some(fc) => exists j :: 1 <= j < |st.table.rows| && CellName(st.table.rows[j], fc) == Some(name)
  }

  /** The rows scanned so far yield exactly the names their cells hold. */
  lemma {:induction false} RowCandidatesNames(names: seq<Option<string>>, tableIdx: nat, specIdx: nat, totalSpec: nat, n: nat, name: string)
    requires 0 < n <= |names|
    ensures name in NamesIn(RowCandidates(names, tableIdx, specIdx, totalSpec, n))
        <==> exists j :: 1 <= j < n && names[j] == Some(name)
  {
    if n > 1 {
      RowCandidatesNames(names, tableIdx, specIdx, totalSpec, n - 1, name);
      var prev := RowCandidates(names, tableIdx, specIdx, totalSpec, n - 1);
      match names[n - 1]
      case Some(v) =>
        var c := Candidate(v, tableIdx, specIdx, Position(n - 1, |names| - 1, specIdx, totalSpec));
        assert NamesIn(prev + [c]) == NamesIn(prev) + {v};
      case None =>
    }
  }

  /** A specification table yields exactly the names in its field column. */
  lemma TableCandidatesNames(st: SpecTable, specIdx: nat, totalSpec: nat, name: string)
    requires |st.table.rows| > 0
    ensures name in NamesIn(TableCandidates(st, specIdx, totalSpec)) <==> InFieldColumn(st, name)
  {
    match FieldColumnFor(st.table)
    case None =>
    case Some(fc) =>
      var names := CellNames(st.table.rows, fc);
      RowCandidatesNames(names, st.tableIdx, specIdx, totalSpec, |st.table.rows|, name);
      assert (exists j :: 1 <= j < |st.table.rows| && names[j] == Some(name))
        <==> (exists j :: 1 <= j < |st.table.rows| && CellName(st.table.rows[j], fc) == Some(name));
  }

  /** The concatenation holds exactly the names of its parts. */
  lemma {:induction false} ConcatNames(xs: seq<seq<Candidate>>, name: string)
    ensures name in NamesIn(Concat(xs)) <==> exists k :: 0 <= k < |xs| && name in NamesIn(xs[k])
  {
    if |xs| > 0 {
      var init := xs[..|xs| - 1];
      var last := |xs| - 1;
      ConcatNames(init, name);
      assert NamesIn(Concat(init) + xs[last]) == NamesIn(Concat(init)) + NamesIn(xs[last]);
      if name in NamesIn(Concat(init)) {
        var k :| 0 <= k < |init| && name in NamesIn(init[k]);
        assert xs[k] == init[k];
      }
    }
  }

  /** Step 2 yields exactly the names in the field columns of the specification tables. */
  lemma AllCandidatesNames(spec: seq<SpecTable>, name: string)
    requires NonEmptyTables(spec)
    ensures name in NamesIn(AllCandidates(spec))
        <==> exists k :: 0 <= k < |spec| && InFieldColumn(spec[k], name)
  {
    var perTable := PerTable(spec);
    ConcatNames(perTable, name);
    if name in NamesIn(AllCandidates(spec)) {
      var k :| 0 <= k < |perTable| && name in NamesIn(perTable[k]);
      TableCandidatesNames(spec[k], k, |spec|, name);
    }
    if exists k :: 0 <= k < |spec| && InFieldColumn(spec[k], name) {
      var k :| 0 <= k < |spec| && InFieldColumn(spec[k], name);
      TableCandidatesNames(spec[k], k, |spec|, name);
      assert name in NamesIn(perTable[k]);
    }
  }

  /** A name found in a field column of any of the tables is identifier-shaped. */
  lemma FieldColumnNameIsIdentifier(spec: seq<SpecTable>, name: string)
    requires NonEmptyTables(spec)
    requires exists k :: 0 <= k < |spec| && InFieldColumn(spec[k], name)
    ensures IsIdentifier(name)
  {
    var k :| 0 <= k < |spec| && InFieldColumn(spec[k], name);
    var fc := FieldColumnFor(spec[k].table).value;
    var j :| 1 <= j < |spec[k].table.rows| && CellName(spec[k].table.rows[j], fc) == Some(name);
  }
}
