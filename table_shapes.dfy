/**
 * Reading the shape of a specification-document table: which tables hold
 * field specifications (a lenient and a strict test), which header cell
 * plays which role, which column holds the field names, and how a cell is
 * read out of a row.
 */
module TableShapes {
  import opened Wrappers
  import opened Strings

  /** A Word table: the cell texts row by row, and `len(table.columns)`. */
  datatype RawTable = RawTable(rows: seq<seq<string>>, columnCount: nat)

  // ---------------------------------------------------------------------
  // Header text
  // ---------------------------------------------------------------------

  /** Header cells as `cell.text.lower().strip()` reads them. */
  function LowerStripped(cells: seq<string>): (r: seq<string>)
    ensures |r| == |cells|
    ensures forall i :: 0 <= i < |cells| ==> r[i] == Strip(Lower(cells[i]))
  {
    seq(|cells|, i requires 0 <= i < |cells| => Strip(Lower(cells[i])))
  }

  /** Header cells as `cell.text.strip().lower()` reads them. */
  function StrippedLower(cells: seq<string>): (r: seq<string>)
    ensures |r| == |cells|
    ensures forall i :: 0 <= i < |cells| ==> r[i] == Lower(Strip(cells[i]))
  {
    seq(|cells|, i requires 0 <= i < |cells| => Lower(Strip(cells[i])))
  }

  /** The two normalisation orders the source uses read a header the same way. */
  lemma NormalisationsAgree(cells: seq<string>)
    ensures LowerStripped(cells) == StrippedLower(cells)
  {
    forall i | 0 <= i < |cells| ensures Strip(Lower(cells[i])) == Lower(Strip(cells[i])) {
      StripLower(cells[i]);
    }
  }

  // ---------------------------------------------------------------------
  // _is_field_specification_table (lenient)
  // ---------------------------------------------------------------------

  /** Text mentioning `field name` mentions `field`. */
  lemma FieldNameHasField(h: string)
    ensures Contains(h, "field name") ==> Contains(h, "field")
  {
    if Contains(h, "field name") {
      ContainsPrefixOf(h, "field name", 5);
      assert "field name"[..5] == "field";
    }
  }

  /** `_is_field_specification_table`: the tables whose rows become columns. */
  function IsFieldSpecificationTable(t: RawTable): (r: bool)
    ensures r ==> |t.rows| >= 2
    ensures r ==> Contains(Join(" ", LowerStripped(t.rows[0])), "field")
  {
    if |t.rows| < 2 then false
    else
      var h := Join(" ", LowerStripped(t.rows[0]));
      var hasFieldName := Contains(h, "field name") || Contains(h, "field");
      var hasDataType := Contains(h, "data type") || Contains(h, "sql");
      var hasDescription := Contains(h, "description") || Contains(h, "business");
      FieldNameHasField(h);
      hasFieldName && (hasDataType || hasDescription)
  }

  /** The header words that, next to `field`, make a table a field specification table. */
  const SpecificationWords: seq<string> := ["data type", "sql", "description", "business"]

  /** One header cell naming a field and another naming a type or description accept the table. */
  lemma LenientFromCells(t: RawTable, i: nat, j: nat, k: nat)
    requires |t.rows| >= 2 && i < |t.rows[0]| && j < |t.rows[0]| && k < |SpecificationWords|
    requires Contains(Strip(Lower(t.rows[0][i])), "field")
    requires Contains(Strip(Lower(t.rows[0][j])), SpecificationWords[k])
    ensures IsFieldSpecificationTable(t)
  {
    var cells := LowerStripped(t.rows[0]);
    var h := Join(" ", cells);
    ContainsInJoin(" ", cells, i, "field");
    ContainsInJoin(" ", cells, j, SpecificationWords[k]);
    assert Contains(h, "field");
    if k == 0 {
      assert Contains(h, "data type");
    } else if k == 1 {
      assert Contains(h, "sql");
    } else if k == 2 {
      assert Contains(h, "description");
    } else {
      assert Contains(h, "business");
    }
  }

  /** Without a header cell mentioning `field` (and no word spanning two cells), the table is refused. */
  lemma LenientNeedsFieldWord(t: RawTable)
    requires |t.rows| >= 2
    requires !Contains(Join(" ", LowerStripped(t.rows[0])), "field")
    ensures !IsFieldSpecificationTable(t)
  {
  }

  /** A joined header that mentions none of the type or description words is refused, whatever else it says. */
  lemma LenientNeedsSpecificationWord(t: RawTable)
    requires |t.rows| >= 2
    requires forall k :: 0 <= k < |SpecificationWords| ==> !Contains(Join(" ", LowerStripped(t.rows[0])), SpecificationWords[k])
    ensures !IsFieldSpecificationTable(t)
  {
    var h := Join(" ", LowerStripped(t.rows[0]));
    assert !Contains(h, SpecificationWords[0]);
    assert !Contains(h, SpecificationWords[1]);
    assert !Contains(h, SpecificationWords[2]);
    assert !Contains(h, SpecificationWords[3]);
  }

  // ---------------------------------------------------------------------
  // _is_specification_table (strict)
  // ---------------------------------------------------------------------

  /**
   * The three column kinds a full specification header is checked for:
   * 0 the field name, 1 a description, 2 a data type.
   */
  const KindWords: seq<seq<string>> := [["field name"], ["description", "business"], ["data type", "sql"]]

  /** Header text `h` names column kind `a`. */
  predicate HasKind(h: string, a: nat)
    requires a < 3
  {
    if a == 0 then Contains(h, "field name")
    else if a == 1 then Contains(h, "description") || Contains(h, "business")
    else Contains(h, "data type") || Contains(h, "sql")
  }

  /** `HasKind` is a mention of one of that kind's words. */
  lemma HasKindWords(h: string, a: nat)
    requires a < 3
    ensures HasKind(h, a) <==> exists w :: 0 <= w < |KindWords[a]| && Contains(h, KindWords[a][w])
  {
    if a == 0 {
      if HasKind(h, a) { assert Contains(h, KindWords[a][0]); }
    } else if HasKind(h, a) {
      if Contains(h, KindWords[a][0]) { } else { assert Contains(h, KindWords[a][1]); }
    }
  }

  /** How many of the three column kinds a full specification header names. */
  function HeaderMatches(h: string): (n: nat)
    ensures n <= 3
    ensures n >= 2 ==> Contains(h, "field name") || Contains(h, "description") || Contains(h, "business")
    ensures n >= 2 <==> exists a, b :: 0 <= a < b < 3 && HasKind(h, a) && HasKind(h, b)
    ensures n == 0 <==> forall a :: 0 <= a < 3 ==> !HasKind(h, a)
  {
    assert HasKind(h, 0) == Contains(h, "field name");
    assert HasKind(h, 1) == (Contains(h, "description") || Contains(h, "business"));
    assert HasKind(h, 2) == (Contains(h, "data type") || Contains(h, "sql"));
    (if Contains(h, "field name") then 1 else 0)
    + (if Contains(h, "description") || Contains(h, "business") then 1 else 0)
    + (if Contains(h, "data type") || Contains(h, "sql") then 1 else 0)
  }

  /** `_is_specification_table`: the tables the section scorer reads. */
  function IsSpecificationTable(t: RawTable): (r: bool)
    ensures r ==> |t.rows| >= 2
    ensures r ==> t.columnCount == 2 || t.columnCount >= 4
    ensures r && t.columnCount == 2 ==> |t.rows| >= 3 && Contains(Join(" ", StrippedLower(t.rows[0])), "field")
    ensures r && t.columnCount >= 4 ==> HeaderMatches(Join(" ", StrippedLower(t.rows[0]))) >= 2
  {
    if |t.rows| < 2 then false
    else
      var h := Join(" ", StrippedLower(t.rows[0]));
      var hasFieldIndicator := Contains(h, "field name") || Contains(h, "field");
      if t.columnCount == 2 then
        FieldNameHasField(h);
        hasFieldIndicator && |t.rows| >= 3
      else if t.columnCount >= 4 then HeaderMatches(h) >= 2
      else false
  }

  /** A two-column table of three or more rows whose header has a `field` cell is an appendix table. */
  lemma StrictAppendixFromCell(t: RawTable, i: nat)
    requires t.columnCount == 2 && |t.rows| >= 3
    requires i < |t.rows[0]| && Contains(Lower(Strip(t.rows[0][i])), "field")
    ensures IsSpecificationTable(t)
  {
    ContainsInJoin(" ", StrippedLower(t.rows[0]), i, "field");
  }

  /** A table of four or more columns whose header cells name two different column kinds is a full specification table. */
  lemma StrictFullFromCells(t: RawTable, i: nat, j: nat, a: nat, b: nat, wa: nat, wb: nat)
    requires t.columnCount >= 4 && |t.rows| >= 2
    requires i < |t.rows[0]| && j < |t.rows[0]|
    requires a < 3 && b < 3 && a != b && wa < |KindWords[a]| && wb < |KindWords[b]|
    requires Contains(Lower(Strip(t.rows[0][i])), KindWords[a][wa])
    requires Contains(Lower(Strip(t.rows[0][j])), KindWords[b][wb])
    ensures IsSpecificationTable(t)
  {
    var h := Join(" ", StrippedLower(t.rows[0]));
    ContainsInJoin(" ", StrippedLower(t.rows[0]), i, KindWords[a][wa]);
    ContainsInJoin(" ", StrippedLower(t.rows[0]), j, KindWords[b][wb]);
    HasKindWords(h, a);
    HasKindWords(h, b);
    if a < b {
      assert HasKind(h, a) && HasKind(h, b);
    } else {
      assert HasKind(h, b) && HasKind(h, a);
    }
  }

  /** Tables of one or three columns are never specification tables. */
  lemma StrictRejectsOddWidths(t: RawTable)
    requires t.columnCount == 1 || t.columnCount == 3 || t.columnCount == 0
    ensures !IsSpecificationTable(t)
  {
  }

  /** A wide strict table with a `field name` header is also a lenient one. */
  lemma StrictWideWithFieldNameIsLenient(t: RawTable)
    requires t.columnCount >= 4 && IsSpecificationTable(t)
    requires Contains(Join(" ", StrippedLower(t.rows[0])), "field name")
    ensures IsFieldSpecificationTable(t)
  {
    NormalisationsAgree(t.rows[0]);
    FieldNameHasField(Join(" ", LowerStripped(t.rows[0])));
  }

  // ---------------------------------------------------------------------
  // _identify_column_indices
  // ---------------------------------------------------------------------

  /** The roles `_identify_column_indices` gives header cells. */
  datatype Role = FieldNumber | FieldName | Description | DataType | NullableFlag | Notes

  predicate NumberCell(h: string) { Contains(h, "#") || Contains(h, "field #") }
  predicate NameCell(h: string) { Contains(h, "field name") || h == "field" }
  predicate DescriptionCell(h: string) { Contains(h, "business") || Contains(h, "description") }
  predicate TypeCell(h: string) { Contains(h, "data type") || Contains(h, "sql") }

  /** The role of one header cell: the first branch of the `if/elif` chain that holds. */
  function RoleOf(cell: string): Option<Role> {
    var h := Strip(Lower(cell));
    if NumberCell(h) then Some(FieldNumber)
    else if NameCell(h) then Some(FieldName)
    else if DescriptionCell(h) then Some(Description)
    else if TypeCell(h) then Some(DataType)
    else if Contains(h, "nullable") then Some(NullableFlag)
    else if Contains(h, "note") then Some(Notes)
    else None
  }

  /** Role precedence: `#` first, then the field name, description, type, nullable, notes. */
  lemma RoleOfPrecedence(cell: string)
    ensures var h := Strip(Lower(cell)); var r := RoleOf(cell);
      && (r == Some(FieldNumber) <==> NumberCell(h))
      && (r == Some(FieldName) <==> !NumberCell(h) && NameCell(h))
      && (r == Some(Description) <==> !NumberCell(h) && !NameCell(h) && DescriptionCell(h))
      && (r == Some(DataType) <==> !NumberCell(h) && !NameCell(h) && !DescriptionCell(h) && TypeCell(h))
      && (r == Some(NullableFlag) <==> !NumberCell(h) && !NameCell(h) && !DescriptionCell(h) && !TypeCell(h)
                                       && Contains(h, "nullable"))
      && (r.None? <==> (!NumberCell(h) && !NameCell(h) && !DescriptionCell(h) && !TypeCell(h)
                      && !Contains(h, "nullable") && !Contains(h, "note")))
  {
  }

  /** The role of every header cell, in order. */
  function Roles(cells: seq<string>): (r: seq<Option<Role>>)
    ensures |r| == |cells|
    ensures forall i :: 0 <= i < |cells| ==> r[i] == RoleOf(cells[i])
  {
    seq(|cells|, i requires 0 <= i < |cells| => RoleOf(cells[i]))
  }

  /** Each role mapped to the last position that carries it: the dictionary after one pass of `col_indices[role] = idx`. */
  function LastPositions(roles: seq<Option<Role>>): (m: map<Role, nat>)
    ensures |roles| == 0 ==> m == map[]
  {
    if |roles| == 0 then map[]
    else
      var prev := LastPositions(roles[..|roles| - 1]);
      match roles[|roles| - 1]
      case None => prev
      case Some(role) => prev[role := |roles| - 1]
  }

  /**
   * Later cells overwrite earlier ones: a role is mapped exactly when some
   * position carries it, and it is mapped to the last such position.
   */
  lemma {:induction false} LastPositionsMeaning(roles: seq<Option<Role>>)
    ensures forall r :: r in LastPositions(roles) <==> Some(r) in roles
    ensures forall r :: r in LastPositions(roles) ==> LastPositions(roles)[r] < |roles| && roles[LastPositions(roles)[r]] == Some(r)
    ensures forall r, i :: r in LastPositions(roles) && LastPositions(roles)[r] < i < |roles| ==> roles[i] != Some(r)
  {
    if |roles| > 0 {
      var n := |roles| - 1;
      LastPositionsMeaning(roles[..n]);
      assert roles == roles[..n] + [roles[n]];
    }
  }

  /** The dictionary `_identify_column_indices` builds for a header row. */
  function RoleMap(cells: seq<string>): map<Role, nat> {
    LastPositions(Roles(cells))
  }

  /** One more header cell: its role, if any, now maps to its position. */
  lemma LastPositionsStep(roles: seq<Option<Role>>, k: nat)
    requires k < |roles|
    ensures roles[k].None? ==> LastPositions(roles[..k + 1]) == LastPositions(roles[..k])
    ensures roles[k].Some? ==> LastPositions(roles[..k + 1]) == LastPositions(roles[..k])[roles[k].value := k]
  {
    assert roles[..k + 1][..k] == roles[..k];
  }

  /** `_identify_column_indices`: walks the header row once, filling the role map. */
  method IdentifyColumnIndices(header: seq<string>) returns (colIndices: map<Role, nat>)
    ensures colIndices == RoleMap(header)
  {
    ghost var roles := Roles(header);
    colIndices := map[];
    var idx := 0;
    while idx < |header|
      invariant 0 <= idx <= |header|
      invariant colIndices == LastPositions(roles[..idx])
    {
      LastPositionsStep(roles, idx);
      match RoleOf(header[idx]) {
        case None =>
        case Some(role) => colIndices := colIndices[role := idx];
      }
      idx := idx + 1;
    }
    assert roles[..idx] == roles;
  }

  /** A role is in the map exactly when some header cell has it, and maps to the last such cell. */
  lemma RoleMapMeaning(cells: seq<string>, role: Role)
    ensures role in RoleMap(cells) <==> exists i :: 0 <= i < |cells| && RoleOf(cells[i]) == Some(role)
    ensures role in RoleMap(cells) ==> RoleMap(cells)[role] < |cells| && RoleOf(cells[RoleMap(cells)[role]]) == Some(role)
    ensures role in RoleMap(cells) ==> forall i :: RoleMap(cells)[role] < i < |cells| ==> RoleOf(cells[i]) != Some(role)
  {
    var roles := Roles(cells);
    LastPositionsMeaning(roles);
    if Some(role) in roles {
      var i :| 0 <= i < |roles| && roles[i] == Some(role);
      assert RoleOf(cells[i]) == Some(role);
    }
  }

  /** Two distinct roles never share a header cell. */
  lemma RolesHaveDistinctCells(cells: seq<string>, r1: Role, r2: Role)
    requires r1 in RoleMap(cells) && r2 in RoleMap(cells) && r1 != r2
    ensures RoleMap(cells)[r1] != RoleMap(cells)[r2]
  {
    RoleMapMeaning(cells, r1);
    RoleMapMeaning(cells, r2);
  }

  /** A header cell containing `#` is always the field-number column, whatever else it says. */
  lemma HashWinsOverFieldName(cells: seq<string>, i: nat)
    requires i < |cells| && Contains(Strip(Lower(cells[i])), "#")
    ensures FieldNumber in RoleMap(cells) && i <= RoleMap(cells)[FieldNumber]
    ensures FieldName in RoleMap(cells) ==> RoleMap(cells)[FieldName] != i
  {
    RoleOfPrecedence(cells[i]);
    RoleMapMeaning(cells, FieldNumber);
    RoleMapMeaning(cells, FieldName);
  }

  // ---------------------------------------------------------------------
  // _get_cell_text
  // ---------------------------------------------------------------------

  /** The Python value passed as a column index: `None`, an `int`, or a `str` default. */
  datatype IndexArg = NoIndex | Index(i: nat) | TextDefault(text: string)

  /**
   * `_get_cell_text`. A string index makes `col_idx >= len(row.cells)`
   * raise `TypeError`, modelled as `Err`.
   */
  function GetCellText(row: seq<string>, colIdx: IndexArg): (r: Result<string>)
    ensures r.Err? <==> colIdx.TextDefault?
    ensures colIdx.NoIndex? ==> r == Ok("")
    ensures colIdx.Index? && colIdx.i >= |row| ==> r == Ok("")
    ensures colIdx.Index? && colIdx.i < |row| ==> r.Ok? && r.value == Strip(row[colIdx.i])
  {
    match colIdx
    case NoIndex => Ok("")
    case TextDefault(_) => Err("TypeError: '>=' not supported between instances of 'str' and 'int'")
    case Index(i) => if i >= |row| then Ok("") else Ok(Strip(row[i]))
  }

  // ---------------------------------------------------------------------
  // _find_field_column
  // ---------------------------------------------------------------------

  /** Header words that mark the field-name column, in the order they are tried. */
  const FieldPatterns: seq<string> := ["field", "column", "name", "attribute", "field name", "column name"]

  /** For each cell of row 1: is its stripped text identifier-shaped (`^[a-zA-Z][a-zA-Z0-9_]*$`)? */
  function SampleShapes(sampleRow: seq<string>): (v: seq<bool>)
    ensures |v| == |sampleRow|
    ensures forall i :: 0 <= i < |sampleRow| ==> v[i] == IsIdentifier(Strip(sampleRow[i]))
  {
    seq(|sampleRow|, i requires 0 <= i < |sampleRow| => IsIdentifier(Strip(sampleRow[i])))
  }

  /** Column `idx` has a row-1 cell and it is a usable field name. */
  predicate ValidSample(shapes: seq<bool>, idx: nat) {
    idx < |shapes| && shapes[idx]
  }

  /** Header `idx` mentions pattern `pi` and the column's sample is usable. */
  predicate PatternHit(headers: seq<string>, shapes: seq<bool>, pi: nat, idx: nat) {
    pi < |FieldPatterns| && idx < |headers| && Contains(headers[idx], FieldPatterns[pi]) && ValidSample(shapes, idx)
  }

  /** `(pi, idx)` comes no later than `(pj, jdx)` in the nested loop order. */
  predicate NoLater(pi: nat, idx: nat, pj: nat, jdx: nat) {
    pi < pj || (pi == pj && idx <= jdx)
  }

  /** First hit of pattern `pi` at a header index `>= idx`. */
  function ScanHeaders(headers: seq<string>, shapes: seq<bool>, pi: nat, idx: nat): (r: Option<nat>)
    requires pi < |FieldPatterns| && idx <= |headers|
    ensures r.Some? ==> idx <= r.value && PatternHit(headers, shapes, pi, r.value)
    ensures r.Some? ==> forall j :: idx <= j < r.value ==> !PatternHit(headers, shapes, pi, j)
    ensures r.None? ==> forall j :: idx <= j ==> !PatternHit(headers, shapes, pi, j)
    decreases |headers| - idx
  {
    if idx == |headers| then None
    else if Contains(headers[idx], FieldPatterns[pi]) && ValidSample(shapes, idx) then Some(idx)
    else ScanHeaders(headers, shapes, pi, idx + 1)
  }

  /** First hit over the patterns from `pi` on, in the source's loop order. */
  function ScanPatterns(headers: seq<string>, shapes: seq<bool>, pi: nat): (r: Option<(nat, nat)>)
    requires pi <= |FieldPatterns|
    ensures r.Some? ==> pi <= r.value.0 && PatternHit(headers, shapes, r.value.0, r.value.1)
    ensures r.Some? ==> forall pj, j :: pi <= pj && PatternHit(headers, shapes, pj, j) ==> NoLater(r.value.0, r.value.1, pj, j)
    ensures r.None? ==> forall pj, j :: pi <= pj ==> !PatternHit(headers, shapes, pj, j)
    decreases |FieldPatterns| - pi
  {
    if pi == |FieldPatterns| then None
    else
      match ScanHeaders(headers, shapes, pi, 0)
      case Some(idx) => Some((pi, idx))
      case None => ScanPatterns(headers, shapes, pi + 1)
  }

  /** The fallback: first of the first three columns with a usable sample. */
  function ScanFallback(width: nat, shapes: seq<bool>, idx: nat): (r: Option<nat>)
    requires idx <= 3
    ensures r.Some? ==> idx <= r.value < 3 && r.value < width && ValidSample(shapes, r.value)
    ensures r.Some? ==> forall j :: idx <= j < r.value ==> !ValidSample(shapes, j)
    ensures r.None? ==> forall j :: idx <= j < 3 && j < width ==> !ValidSample(shapes, j)
    decreases 3 - idx
  {
    if idx >= 3 || idx >= width then None
    else if ValidSample(shapes, idx) then Some(idx)
    else ScanFallback(width, shapes, idx + 1)
  }

  /** `_find_field_column` */
  function FindFieldColumn(t: RawTable): (r: Option<nat>)
    ensures |t.rows| < 2 ==> r.None?
    ensures r.Some? ==> |t.rows| >= 2 && r.value < |t.rows[0]| && r.value < |t.rows[1]|
    ensures r.Some? ==> IsIdentifier(Strip(t.rows[1][r.value]))
  {
    if |t.rows| < 2 then None
    else
      var headers := StrippedLower(t.rows[0]);
      var shapes := SampleShapes(t.rows[1]);
      match ScanPatterns(headers, shapes, 0)
      case Some((_, idx)) => Some(idx)
      case None => ScanFallback(|headers|, shapes, 0)
  }

  /** The column picked by the pattern search is the first hit in pattern-then-column order. */
  lemma FindFieldColumnPrefersPatterns(t: RawTable, pi: nat, idx: nat)
    requires |t.rows| >= 2 && PatternHit(StrippedLower(t.rows[0]), SampleShapes(t.rows[1]), pi, idx)
    ensures FindFieldColumn(t).Some?
    ensures exists pj :: PatternHit(StrippedLower(t.rows[0]), SampleShapes(t.rows[1]), pj, FindFieldColumn(t).value)
              && NoLater(pj, FindFieldColumn(t).value, pi, idx)
  {
    var r := ScanPatterns(StrippedLower(t.rows[0]), SampleShapes(t.rows[1]), 0);
    assert NoLater(r.value.0, r.value.1, pi, idx);
  }

  /** Without any pattern hit the first usable one of the first three columns is chosen. */
  lemma FindFieldColumnFallback(t: RawTable)
    requires |t.rows| >= 2
    requires forall pi, idx :: !PatternHit(StrippedLower(t.rows[0]), SampleShapes(t.rows[1]), pi, idx)
    ensures FindFieldColumn(t).Some? ==> (FindFieldColumn(t).value < 3
      && forall j :: 0 <= j < FindFieldColumn(t).value ==> !ValidSample(SampleShapes(t.rows[1]), j))
    ensures FindFieldColumn(t).None? ==> forall j :: 0 <= j < 3 && j < |t.rows[0]| ==> !ValidSample(SampleShapes(t.rows[1]), j)
  {
    assert ScanPatterns(StrippedLower(t.rows[0]), SampleShapes(t.rows[1]), 0).None?;
  }

  /** A header mentioning `field name` (`column name`) also mentions `field` (`column`). */
  lemma LongPatternImpliesShort(headers: seq<string>, shapes: seq<bool>, pi: nat, idx: nat)
    requires 4 <= pi && PatternHit(headers, shapes, pi, idx)
    ensures PatternHit(headers, shapes, pi - 4, idx)
  {
    assert FieldPatterns[4][..5] == FieldPatterns[0] && FieldPatterns[5][..6] == FieldPatterns[1];
    ContainsPrefixOf(headers[idx], FieldPatterns[pi], |FieldPatterns[pi - 4]|);
  }

  /** `field name` and `column name` are never the deciding pattern: `field` and `column` come first. */
  lemma LongPatternsNeverDecide(headers: seq<string>, shapes: seq<bool>)
    ensures ScanPatterns(headers, shapes, 0).Some? ==> ScanPatterns(headers, shapes, 0).value.0 < 4
  {
    var r := ScanPatterns(headers, shapes, 0);
    if r.Some? && r.value.0 >= 4 {
      LongPatternImpliesShort(headers, shapes, r.value.0, r.value.1);
    }
  }

  // ---------------------------------------------------------------------
  // _extract_field_names_from_table
  // ---------------------------------------------------------------------

  /** A non-empty, stripped name that is not a `#` line. */
  predicate IsFieldName(name: string) {
    name != [] && !StartsWith(name, "#") && Strip(name) == name
  }

  /** A data row's first cell, stripped, when it names a field (not empty, not a `#` line). */
  function RowName(row: seq<string>): (r: Option<string>)
    ensures r.Some? ==> IsFieldName(r.value)
  {
    if |row| > 0 && Strip(row[0]) != [] && !StartsWith(Strip(row[0]), "#") then
      StripIdempotent(row[0]);
      Some(Strip(row[0]))
    else None
  }

  /** The field names of the data rows in `rows`, in order. */
  function FieldNamesOf(rows: seq<seq<string>>): (names: seq<string>)
    ensures |names| <= |rows|
  {
    if |rows| == 0 then []
    else
      var prev := FieldNamesOf(rows[..|rows| - 1]);
      match RowName(rows[|rows| - 1])
      case None => prev
      case Some(name) => prev + [name]
  }

  /** Every collected name is a non-empty, stripped name that is not a `#` line. */
  lemma {:induction false} FieldNamesAreNames(rows: seq<seq<string>>)
    ensures forall k :: 0 <= k < |FieldNamesOf(rows)| ==> IsFieldName(FieldNamesOf(rows)[k])
  {
    if |rows| > 0 {
      var last := |rows| - 1;
      var prev := FieldNamesOf(rows[..last]);
      FieldNamesAreNames(rows[..last]);
      match RowName(rows[last])
      case None =>
      case Some(name) =>
        var names := prev + [name];
        assert FieldNamesOf(rows) == names;
        forall k | 0 <= k < |names| ensures IsFieldName(names[k]) {
          if k < |prev| { assert names[k] == prev[k]; }
        }
    }
  }

  /** Every data row that names a field contributes that name. */
  lemma {:induction false} FieldNamesComplete(rows: seq<seq<string>>, i: nat)
    requires i < |rows| && RowName(rows[i]).Some?
    ensures RowName(rows[i]).value in FieldNamesOf(rows)
  {
    var last := |rows| - 1;
    var prev := FieldNamesOf(rows[..last]);
    if i < last {
      FieldNamesComplete(rows[..last], i);
      assert rows[..last][i] == rows[i];
      assert RowName(rows[i]).value in prev;
      match RowName(rows[last])
      case None =>
      case Some(name) => assert FieldNamesOf(rows) == prev + [name];
    } else {
      assert FieldNamesOf(rows) == prev + [RowName(rows[last]).value];
    }
  }

  /** One more data row adds its field name, if it has one, at the end. */
  lemma FieldNamesOfStep(rows: seq<seq<string>>, i: nat)
    requires i < |rows|
    ensures RowName(rows[i]).None? ==> FieldNamesOf(rows[..i + 1]) == FieldNamesOf(rows[..i])
    ensures RowName(rows[i]).Some? ==> FieldNamesOf(rows[..i + 1]) == FieldNamesOf(rows[..i]) + [RowName(rows[i]).value]
  {
    assert rows[..i + 1][..i] == rows[..i];
    assert rows[..i + 1][i] == rows[i];
  }

  /** `_extract_field_names_from_table` */
  method ExtractFieldNamesFromTable(t: RawTable) returns (fieldNames: seq<string>)
    ensures |t.rows| > 0 ==> fieldNames == FieldNamesOf(t.rows[1..])
    ensures |t.rows| == 0 ==> fieldNames == []
  {
    fieldNames := [];
    if |t.rows| == 0 { return; }
    var data := t.rows[1..];
    var i := 0;
    while i < |data|
      invariant 0 <= i <= |data|
      invariant fieldNames == FieldNamesOf(data[..i])
    {
      FieldNamesOfStep(data, i);
      var row := data[i];
      if |row| > 0 {
        var cellText := Strip(row[0]);
        if cellText != [] && !StartsWith(cellText, "#") {
          fieldNames := fieldNames + [cellText];
        }
      }
      i := i + 1;
    }
    assert data[..i] == data;
  }
}
