# Multi-agent metadata service: a verified model of its core

This project models, in Dafny, the deterministic core of a multi-agent
service that reads data-specification documents (Word files describing
the fields of a header/body/trailer record layout) and then serves the
resulting metadata to agents and to an HTTP API.

The centre is the **specification-document field extractor**
(`src/services/document_parser.py`). Its input is the document's tables,
each given as its cell texts row by row plus its column count. The
modelled parts are:

- **Table classifiers.** The lenient classifier picks the field
  specification tables whose rows become columns. The strict classifier
  picks the specification tables the section scorer reads.
- **Header-role locator.** It maps header cells to the roles field
  number, field name, description, data type, nullable and notes.
- **Field-column finder.** It picks the column that holds field names.
- **Cell reader.**
- **SQL type decomposer.**
- **Nullable parser.**
- **Name-pattern classifier.**
- **Section scorer.** It scores every identifier-shaped field name with
  header, body and trailer points. It keeps the first occurrence of each
  name. It ranks the names with a stable descending sort. It takes the
  top six as header fields and up to three of the top trailer-scored
  names as trailer fields; everything else is body.
- **Row-to-column assembly.** A running counter threads column ids
  through the tables.

Next to it are the smaller pieces the agents and the API use:

- the feedback command parser (`src/agents/feedback_parser.py`);
- the thread-id helpers (`src/utils/thread_helpers.py`);
- the input guards (`src/utils/validators.py`);
- the intent heuristic and graph routing (`src/agents/supervisor.py`);
- the data-dictionary sampler and the list limit (`src/api/v1/metadata.py`);
- the in-place column update of `submit_feedback` and the thread status
  (`src/api/v1/agents.py`);
- the prompt reader and the task-status polling of the document-parser
  agent (`src/agents/doc_parser_agent.py`);
- the DDL safety check (`src/services/validator.py`).

Each source file maps to one or more modules:

- `document_parser.py`: `TableShapes`, `ColumnTypes`, `SectionScores`,
  `ClassificationTables`, `ClassificationMap`, `StableSort`,
  `DocumentAssembly` and `ColumnIds`.
- Every other source file has a module of its own.
- `Strings`, `Scans` and `Wrappers` are shared helpers for Python's
  string operations, list scans and `None`.

Code that loops and updates variables is written as Dafny methods with
loop invariants. Each method is proved equal to a specification function,
and the properties are proved about that function:

- the table loops;
- the role dictionary;
- the scorer's five steps;
- the column counter;
- the pattern loop;
- the sample fill;
- the bucketing;
- the poll loop over an array of task statuses.

Where the source changes an object in place, the model uses a class with
a `modifies` clause:

- the parsed document whose columns `submit_feedback` updates;
- the graph state that `supervisor_node` writes.

Regular expressions are written out as scans over the string. Python's
float ratios in the scorer are compared by integer cross-multiplication,
which gives the same answer.

One might expect the column ids of a document to be exactly 1..N across
all tables, with no gaps or repeats. The code does not guarantee this.
A row's id counts every data row of its table (`start + row_idx - 1`), but
the next table's start advances only by the number of columns produced. The model follows the code:

- When every row parses, the ids are exactly 1..N
  (`ColumnIds.IdsConsecutiveWhenAllParse`).
- When a row is skipped, an id can repeat (`ColumnIds.SkippedRowRepeatsId`).

## Model

| member | source | states |
|---|---|---|
| TableShapes.NormalisationsAgree | src/services/document_parser.py:186-216 | reading header cells as `lower().strip()` or as `strip().lower()` gives the same texts |
| TableShapes.IsFieldSpecificationTable | src/services/document_parser.py:173-195 | an accepted table has at least two rows and its joined lower-cased header mentions `field`; with `LenientFromCells` and `LenientNeedsSpecificationWord` this is the full "iff `field` and a type or description word" |
| TableShapes.LenientFromCells | src/services/document_parser.py:186-195 | a header cell with `field` plus a cell with `data type`, `sql`, `description` or `business` makes the table a field specification table |
| TableShapes.LenientNeedsFieldWord | src/services/document_parser.py:183-195 | a table whose joined header never mentions `field` is refused |
| TableShapes.LenientNeedsSpecificationWord | src/services/document_parser.py:190-195 | a table whose joined header mentions none of `data type`, `sql`, `description`, `business` is refused, even with `field` in it |
| TableShapes.HeaderMatches | src/services/document_parser.py:227-235 | counts at most three column kinds; the count is two or more iff the header names two different kinds (field name; description/business; data type/sql), and zero iff it names none |
| TableShapes.IsSpecificationTable | src/services/document_parser.py:197-237 | accepted tables have at least two rows: two-column tables need three rows and `field` in the header; tables of four or more columns need two of the three column kinds; the two lemmas below give the converse |
| TableShapes.StrictAppendixFromCell | src/services/document_parser.py:218-222 | a two-column table with at least three rows and a header cell mentioning `field` is accepted |
| TableShapes.StrictFullFromCells | src/services/document_parser.py:224-235 | a table of four or more columns and at least two rows whose header cells name two different column kinds is accepted |
| TableShapes.StrictRejectsOddWidths | src/services/document_parser.py:222-237 | tables of zero, one or three columns are never specification tables |
| TableShapes.StrictWideWithFieldNameIsLenient | src/services/document_parser.py:173-237 | a wide strict table whose header says `field name` is also a field specification table |
| TableShapes.RoleOfPrecedence | src/services/document_parser.py:516-530 | a header cell gets the first role of the chain `#`, field name, description, data type, nullable, notes that it matches, and at most one |
| TableShapes.LastPositionsMeaning | src/services/document_parser.py:516-530 | the role dictionary maps each role that occurs to its last cell, and no later cell carries it |
| TableShapes.IdentifyColumnIndices | src/services/document_parser.py:504-532 | the loop over the header cells builds exactly the role dictionary `RoleMap` |
| TableShapes.RoleMapMeaning | src/services/document_parser.py:504-532 | a role is present iff some header cell has it, and it maps to the last such cell |
| TableShapes.RolesHaveDistinctCells | src/services/document_parser.py:516-530 | two different roles never map to the same header cell |
| TableShapes.HashWinsOverFieldName | src/services/document_parser.py:516-521 | a cell containing `#` is the field-number column, never the field-name column |
| TableShapes.GetCellText | src/services/document_parser.py:611-615 | no index or an out-of-range index gives "", an in-range index gives the stripped cell, and a text default (the row-parse defaults) is the comparison error |
| TableShapes.SampleShapes | src/services/document_parser.py:424-437 | marks each row-1 cell whose stripped text is identifier-shaped |
| TableShapes.ScanHeaders | src/services/document_parser.py:424-430 | finds the first header at or after a position that mentions a pattern and has a usable sample |
| TableShapes.ScanPatterns | src/services/document_parser.py:424-430 | finds the first hit in pattern-then-column loop order; no hit means no pattern matches anywhere |
| TableShapes.ScanFallback | src/services/document_parser.py:432-437 | finds the first of the first three columns with a usable sample |
| TableShapes.FindFieldColumn | src/services/document_parser.py:403-439 | gives no column for tables of fewer than two rows; a chosen column exists in both rows and its row-1 cell is identifier-shaped |
| TableShapes.FindFieldColumnPrefersPatterns | src/services/document_parser.py:424-430 | when some pattern hits, a column is found and it is a pattern hit |
| TableShapes.FindFieldColumnFallback | src/services/document_parser.py:432-439 | without a pattern hit, the first usable column among the first three is chosen, else none |
| TableShapes.LongPatternsNeverDecide | src/services/document_parser.py:422-430 | `field name` and `column name` never decide, because `field` and `column` are tried first |
| TableShapes.RowName | src/services/document_parser.py:455-457 | a row's name is non-empty, stripped and not a `#` line |
| TableShapes.FieldNamesAreNames | src/services/document_parser.py:454-458 | every extracted field name is non-empty, stripped and not a `#` line |
| TableShapes.FieldNamesComplete | src/services/document_parser.py:454-458 | every data row whose first cell names a field contributes that name |
| TableShapes.ExtractFieldNamesFromTable | src/services/document_parser.py:441-460 | the loop collects the names of the rows after the header, in order |
| ColumnTypes.FlagsOf | src/services/document_parser.py:668-758 | the flags of a section have exactly that one flag set |
| ColumnTypes.DecomposeType | src/services/document_parser.py:638-653 | a length only comes with VARCHAR/CHAR; precision and scale come together and only with DECIMAL/NUMERIC |
| ColumnTypes.TextBeforeParen | src/services/document_parser.py:653 | the result is the stripped text before the first `(`, or the whole stripped text when there is no `(` |
| ColumnTypes.ParseDataType | src/services/document_parser.py:617-653 | the empty text gives (VARCHAR, None, None, None); the base type has no lower-case letter; length, precision and scale as in DecomposeType |
| ColumnTypes.ParseFallbackType | src/services/document_parser.py:635-653 | when none of the three regexes matches, the base type is the stripped, upper-cased text before the first `(`, with no numbers |
| ColumnTypes.ParseOtherType | src/services/document_parser.py:637-653 | a type starting with none of VARCHAR, CHAR, DECIMAL, NUMERIC (such as `INT(11)`) takes that fallback |
| ColumnTypes.ParseSizedType | src/services/document_parser.py:638-640 | `VARCHAR(n)` and `CHAR(n)` decode to their keyword and length n |
| ColumnTypes.ParseScaledType | src/services/document_parser.py:643-645 | `DECIMAL(p,s)` and `NUMERIC(p,s)` decode to precision p and scale s |
| ColumnTypes.ParsePrecisionOnly | src/services/document_parser.py:648-650 | `DECIMAL(p)` and `NUMERIC(p)` decode to precision p and scale 0 |
| ColumnTypes.ParseUnsizedType | src/services/document_parser.py:635-653 | a non-empty type text without `(` is kept whole, stripped and upper-cased, with no numbers |
| ColumnTypes.ParseDataTypeIgnoresCase | src/services/document_parser.py:635 | the decomposition does not depend on the letter case of the input |
| ColumnTypes.NullableSpellingsExactly | src/services/document_parser.py:655-666 | nullable iff the trimmed text is y, yes, true, 1, null or nullable in any case |
| ColumnTypes.NullableIgnoresCase | src/services/document_parser.py:665-666 | the nullable flag does not depend on letter case |
| ColumnTypes.NullableIgnoresPadding | src/services/document_parser.py:665-666 | the nullable flag does not depend on surrounding whitespace |
| ColumnTypes.NullableBlankIsFalse | src/services/document_parser.py:665-666 | an empty or blank cell is not nullable |
| ColumnTypes.FirstMatch | src/services/document_parser.py:736-745 | gives the first pattern in list order that matches, and finds one iff any matches |
| ColumnTypes.ClassifyFieldByName | src/services/document_parser.py:668-758 | exactly one flag is set; header name patterns decide first, then trailer patterns; with no pattern match, a description with `header` or `file-level` gives header, then one with `trailer`, `total` or `count` gives trailer, and otherwise the field is body |
| ColumnTypes.NamePatternOutranksDescription | src/services/document_parser.py:736-758 | once a name pattern matches, the description plays no part |
| ColumnTypes.CountSuffixIsTrailer | src/services/document_parser.py:719-745 | a name ending in `_count` is a trailer field unless a header pattern claims it |
| ColumnTypes.ClassifyIgnoresNameCase | src/services/document_parser.py:694-695 | the classification does not depend on the letter case of the name |
| SectionScores.StrongHeaderPoints | src/services/document_parser.py:287-294 | the exact strong header names earn at most 10 points |
| SectionScores.StrongTrailerPoints | src/services/document_parser.py:310-313 | the exact strong trailer names earn at most 10 points |
| SectionScores.BodyGroups | src/services/document_parser.py:331-340 | at most five groups of business words are counted |
| SectionScores.MaxScore | src/services/document_parser.py:352 | is one of the three scores and at least each of them |
| SectionScores.Provisional | src/services/document_parser.py:353 | the provisional section has the highest score; ties go to header, then body |
| SectionScores.DefaultBodyPoints | src/services/document_parser.py:329-344 | body points leave remainder 2 mod 3 iff neither header nor trailer reaches three, and never exceed 17 |
| SectionScores.ScoreBounds | src/services/document_parser.py:285-327 | header scores never exceed 21 and trailer scores never exceed 30 |
| SectionScores.PositionMattersLittle | src/services/document_parser.py:282-344 | position moves the header score by at most 4 and the trailer score by at most 2; body points are three per group plus at most 2 |
| SectionScores.ScoreFieldIgnoresCase | src/services/document_parser.py:278 | scores do not depend on the letter case of the name |
| SectionScores.HeaderIdScores | src/services/document_parser.py:287-298 | `header_id` and `subheader_id` score at least 14 header points |
| SectionScores.StrongTrailerNamesAreNotBody | src/services/document_parser.py:310-353 | the strongest trailer names score at least 19 and are never provisionally body |
| SectionScores.AccountIsTrailerWord | src/services/document_parser.py:316-334 | a name containing `account` is both a trailer word (it contains `count`) and a party word |
| SectionScores.AccountLeansTrailer | src/services/document_parser.py:316-353 | a plain account field scores 3 body points and at least 4 trailer points, so it is provisionally a trailer |
| SectionScores.PlainNameTie | src/services/document_parser.py:342-353 | a name that fires no rule scores 2 body points and at most 2 trailer points, yet the tie-break makes it provisionally a header |
| ClassificationTables.SpecFlags | src/services/document_parser.py:250-255 | flags exactly the specification tables |
| ClassificationTables.Flagged | src/services/document_parser.py:250-255 | keeps flagged tables only, with their indices, in document order |
| ClassificationTables.SpecTables | src/services/document_parser.py:250-255 | the specification tables with their indices, in increasing index order |
| ClassificationTables.SpecTablesComplete | src/services/document_parser.py:250-255 | every specification table of the document is scored |
| ClassificationTables.CollectSpecTables | src/services/document_parser.py:250-255 | the loop over the tables collects exactly `SpecTables` |
| ClassificationTables.FieldColumnFor | src/services/document_parser.py:260-267 | the field column is in the header; there is none only when the finder fails and the header has one cell |
| ClassificationTables.CellName | src/services/document_parser.py:270-276 | a row gives a name iff its field cell exists and, stripped, is identifier-shaped |
| ClassificationTables.CollectRowCandidates | src/services/document_parser.py:270-354 | the data-row loop collects exactly the row candidates of the table |
| ClassificationTables.CollectTableCandidates | src/services/document_parser.py:257-354 | one table's step: the field column, then the row candidates |
| ClassificationTables.CollectCandidates | src/services/document_parser.py:257-354 | the loop over the specification tables collects exactly `AllCandidates` |
| ClassificationTables.TableCandidatesNames | src/services/document_parser.py:270-276 | a table yields exactly the names in its field column |
| ClassificationTables.AllCandidatesNames | src/services/document_parser.py:257-354 | step 2 yields exactly the names in the field columns of the specification tables |
| ClassificationTables.FieldColumnNameIsIdentifier | src/services/document_parser.py:276 | every scored name is identifier-shaped |
| ClassificationMap.FirstOccurrences | src/services/document_parser.py:356-362 | deduplication keeps distinct names, drops no name, and keeps only candidates it was given |
| ClassificationMap.FirstOccurrenceKept | src/services/document_parser.py:356-362 | a candidate whose name has not been seen before survives |
| ClassificationMap.KeptIsFirst | src/services/document_parser.py:356-362 | the candidate kept for a name is that name's first occurrence |
| ClassificationMap.Deduplicate | src/services/document_parser.py:356-362 | the `seen_fields` loop computes exactly `FirstOccurrences` |
| ClassificationMap.Ranked | src/services/document_parser.py:366-367 | the ranking is the candidates reordered by the stable descending sort of the keys |
| ClassificationMap.RankedDistinct | src/services/document_parser.py:366-367 | ranking keeps names distinct |
| ClassificationMap.TopNamesSize | src/services/document_parser.py:369-379 | the first k ranked names are k distinct names, or all of them when fewer |
| ClassificationMap.TopNamesBeatRest | src/services/document_parser.py:366-379 | a name among the top k comes before any name outside them in the sort order |
| ClassificationMap.ClassificationFor | src/services/document_parser.py:387-394 | one map entry per unique name, each with exactly one flag set by the section the name was put in |
| ClassificationMap.UniqueCandidates | src/services/document_parser.py:239-362 | the unique candidates have distinct names |
| ClassificationMap.SelectHeaderFields | src/services/document_parser.py:369-372 | the header loop takes the names of the first six ranked candidates |
| ClassificationMap.SelectTrailerFields | src/services/document_parser.py:374-379 | the trailer loop keeps those of the first three trailer-ranked names that are not headers |
| ClassificationMap.SelectBodyFields | src/services/document_parser.py:381-385 | the body loop takes every name that is neither header nor trailer |
| ClassificationMap.BuildClassificationMap | src/services/document_parser.py:387-394 | the map loop builds one entry per unique name |
| ClassificationMap.ExtractClassificationTables | src/services/document_parser.py:239-401 | the whole scorer computes exactly `ClassificationOfTables` |
| ClassificationMap.HeaderCount | src/services/document_parser.py:369-372 | the header set has six names, or all names when there are fewer |
| ClassificationMap.TrailerCount | src/services/document_parser.py:374-379 | the trailer set has at most three names, none of them a header |
| ClassificationMap.HeadersWinOnHeaderScore | src/services/document_parser.py:366-372 | a header name's header score is higher than any non-header name's, or equal and the header comes earlier |
| ClassificationMap.TrailersWinOverBody | src/services/document_parser.py:367-385 | a trailer name's trailer score is higher than any body name's, or equal and the trailer comes earlier |
| ClassificationMap.FewFieldsAreAllHeader | src/services/document_parser.py:369-372 | with six names or fewer, every name is a header whatever its scores |
| ClassificationMap.UniqueCandidateNames | src/services/document_parser.py:257-362 | the unique names are exactly the identifier-shaped field cells of the specification tables |
| ClassificationMap.ClassificationKeys | src/services/document_parser.py:239-394 | the map's keys are exactly the identifier-shaped field cells of the specification tables |
| ClassificationMap.KeysAreIdentifiers | src/services/document_parser.py:276-394 | every key is identifier-shaped |
| StableSort.Insert | src/services/document_parser.py:366-367 | insertion adds one position and keeps the others |
| StableSort.InsertOrdered | src/services/document_parser.py:366-367 | inserting a new position keeps the stable descending order |
| StableSort.SortIndices | src/services/document_parser.py:366-367 | the sort returns each position below n, and only those |
| StableSort.SortIndicesOrdered | src/services/document_parser.py:366-367 | the sort is in descending key order; equal keys keep their original order |
| StableSort.SortIndicesDistinct | src/services/document_parser.py:366-367 | no position appears twice |
| StableSort.TopK | src/services/document_parser.py:369-379 | whatever the sort puts earlier comes before whatever it puts later |
| DocumentAssembly.ArgFor | src/services/document_parser.py:554-562 | a mapped role gives its index, an unmapped role gives the default |
| DocumentAssembly.BuildColumn | src/services/document_parser.py:571-607 | the column keeps its id and name, its description is never empty, and its flags come from the classification map or name exactly one section |
| DocumentAssembly.ParseRowToColumn | src/services/document_parser.py:534-609 | a row is skipped iff it has no name; it parses iff it has a name and all five roles are mapped (taking the enrichment reply to be a usable JSON object), with the given id and the stripped name; otherwise it is the dropped-row error |
| DocumentAssembly.RowOutcomes | src/services/document_parser.py:488-500 | data row j gets id `start + j` |
| DocumentAssembly.ParseRows | src/services/document_parser.py:488-500 | the row loop with its `try`/`except` keeps exactly the parsed columns |
| DocumentAssembly.ParseTableToColumns | src/services/document_parser.py:462-502 | a table's columns are the header roles applied to the data rows |
| DocumentAssembly.FieldSpecTables | src/services/document_parser.py:146-171 | only field specification tables, each with at least two rows |
| DocumentAssembly.FieldSpecTablesMembers | src/services/document_parser.py:164-171 | a table is kept iff it is one of the document's field specification tables |
| DocumentAssembly.ExtractFieldSpecificationTables | src/services/document_parser.py:164-171 | the loop computes exactly `FieldSpecTables` |
| DocumentAssembly.ColumnsOfStep | src/services/document_parser.py:75-84 | one more table appends its columns, numbered from one past the columns before it |
| DocumentAssembly.ParseFieldTables | src/services/document_parser.py:74-84 | the running counter threads the start ids exactly as `ColumnsOf` does |
| DocumentAssembly.ParseDocument | src/services/document_parser.py:38-103 | the document's columns come from the field tables under the classification map |
| ColumnIds.RowOutcomesFollowRows | src/services/document_parser.py:488-494 | every parsed row at offset j carries id `start + j` |
| ColumnIds.ParsedIdsIncrease | src/services/document_parser.py:488-500 | parsed ids lie in the table's block and strictly increase |
| ColumnIds.AllParsedIds | src/services/document_parser.py:488-500 | when every row parses, the ids are exactly start, start+1, ... |
| ColumnIds.TableColumnIds | src/services/document_parser.py:462-502 | a table's ids lie in its own block and increase |
| ColumnIds.RowsAllParse | src/services/document_parser.py:488-500 | rows that all parse give one column per data row, numbered from start |
| ColumnIds.TableColumnsWhenAllParse | src/services/document_parser.py:462-502 | a table whose rows all parse gives one column per data row, numbered from start |
| ColumnIds.RowsWithoutAllRoles | src/services/document_parser.py:498-562 | without a description, data type, nullable or notes column, every row is dropped |
| ColumnIds.TableWithoutAllRolesIsEmpty | src/services/document_parser.py:484-562 | such a table yields no columns |
| ColumnIds.ColumnsOfIsThreaded | src/services/document_parser.py:74-84 | the document's columns are the counter threaded through `_parse_table_to_columns` |
| ColumnIds.ThreadedIdsConsecutive | src/services/document_parser.py:74-84 | threading tables that each number their rows from their start gives ids 1..N |
| ColumnIds.IdsConsecutiveWhenAllParse | src/services/document_parser.py:74-500 | when every row of every table parses, the ids are exactly 1..N in traversal order |
| ColumnIds.SkipThenParse | src/services/document_parser.py:488-500 | a skipped first data row shifts the next column's id to start+1 |
| ColumnIds.FirstRowParses | src/services/document_parser.py:488-500 | a parsed first data row has id start |
| ColumnIds.SkippedRowRepeatsId | src/services/document_parser.py:84-494 | a skipped row makes two tables both produce id 2, so ids repeat |
| FeedbackParser.AliasesAreValid | src/agents/feedback_parser.py:184-198 | every alias names a valid field |
| FeedbackParser.ClosestField | src/agents/feedback_parser.py:171-208 | aliases decide first; otherwise a field in iteration order that contains or is contained in the lower-cased text and no earlier field does, else None exactly when no field does |
| FeedbackParser.ClosestFieldIsValid | src/agents/feedback_parser.py:181-208 | a resolved field is always one of the valid fields |
| FeedbackParser.ParseInt | src/agents/feedback_parser.py:240-244 | an accepted integer text is not blank |
| FeedbackParser.ParseIntOfDigits | src/agents/feedback_parser.py:148-149 | `int()` of a plain run of digits is its decimal value |
| FeedbackParser.ParseIntOfNegativeDigits | src/agents/feedback_parser.py:240-241 | `int()` of a minus sign and digits is the negated value |
| FeedbackParser.ParseIntOfDecimal | src/agents/feedback_parser.py:148-149 | `int(str(n))` gives back n |
| FeedbackParser.Inner | src/agents/feedback_parser.py:223 | `value[1:-1]` is the text between the first and last characters, empty when shorter than two |
| FeedbackParser.Unquote | src/agents/feedback_parser.py:222-225 | strips one layer of surrounding double quotes, else single quotes, else leaves the value |
| FeedbackParser.CommaItems | src/agents/feedback_parser.py:256-259 | one stripped item per comma-separated part |
| FeedbackParser.BooleanValues | src/agents/feedback_parser.py:228-236 | boolean fields always give a bool, true exactly for the affirmative words in any case |
| FeedbackParser.IntegerValues | src/agents/feedback_parser.py:239-244 | integer fields give the integer `int()` reads, or None |
| FeedbackParser.JsonValues | src/agents/feedback_parser.py:247-262 | JSON fields always give a list: for a bracketed value the decoded array, or its trimmed comma items when decoding fails; otherwise the trimmed comma items when there is a comma, else the value alone |
| FeedbackParser.TextValues | src/agents/feedback_parser.py:265-269 | other fields give None for NULL/NONE/N/A in any case and the unquoted text otherwise |
| FeedbackParser.ResolvedFieldIsValid | src/agents/feedback_parser.py:136-145 | a normalised field that is kept is a valid field |
| FeedbackParser.Attempt | src/agents/feedback_parser.py:119-166 | a command from one pattern has action `update` and the stripped feedback as its original text |
| FeedbackParser.AttemptFieldIsValid | src/agents/feedback_parser.py:136-163 | the field of a command from any pattern is valid |
| FeedbackParser.FirstFromIsFirst | src/agents/feedback_parser.py:117-169 | the pattern loop gives None iff every pattern fails, else the first pattern's command |
| FeedbackParser.ParseCommand | src/agents/feedback_parser.py:110-111 | blank or empty feedback gives None |
| FeedbackParser.ParseCommandIsAttempt | src/agents/feedback_parser.py:117-166 | a parsed command is one pattern's attempt on the stripped text |
| FeedbackParser.ParsedCommandsAreValid | src/agents/feedback_parser.py:136-163 | every parsed command has action `update`, a valid field and the stripped feedback |
| FeedbackParser.TryPattern | src/agents/feedback_parser.py:118-166 | the loop body for one pattern computes exactly that pattern's attempt |
| FeedbackParser.Parse | src/agents/feedback_parser.py:93-169 | the loop with early return computes exactly `ParseCommand` |
| FeedbackParser.SplitCommandsHaveNoSeparators | src/agents/feedback_parser.py:284 | no part of the split feedback contains `;`, `,` or a newline |
| FeedbackParser.ParseAllValid | src/agents/feedback_parser.py:286-289 | every collected command has action `update` and a valid field |
| FeedbackParser.ParseMultiple | src/agents/feedback_parser.py:271-291 | the loop collects the commands of the parts that parse, in order |
| ThreadHelpers.GenerateThreadId | src/utils/thread_helpers.py:11-60 | an id starts with `user_`; a given timestamp without `T` is used verbatim; only ISO timestamps can fail |
| ThreadHelpers.ParseThreadId | src/utils/thread_helpers.py:63-107 | succeeds iff splitting on `_session_` gives two parts and the first starts with `user_`; the id is then `user_` + user id + `_session_` + timestamp; anonymous iff the user id starts with `anon_` or `session_` |
| ThreadHelpers.ComposedIdParses | src/utils/thread_helpers.py:60-104 | an id with a single `_session_` parses back to its parts |
| ThreadHelpers.GenerateParseRoundTrip | src/utils/thread_helpers.py:45-104 | a generated id with a single marker parses back to the identifier and timestamp, and to the given user id |
| ThreadHelpers.SessionIdsNeverParse | src/utils/thread_helpers.py:47-131 | ids built from a session id never parse and never validate |
| ThreadHelpers.AnonymousIdsParseAsAnonymous | src/utils/thread_helpers.py:49-99 | anonymous ids that parse are reported as anonymous |
| Validators.ValidateUserInput | src/utils/validators.py:11-30 | valid iff the prompt is within 5000 characters and any metadata id is positive; the length message comes first |
| Validators.FirstInjection | src/utils/validators.py:60-64 | flags iff some pattern occurs |
| Validators.DetectPromptInjection | src/utils/validators.py:33-64 | flags iff some suspicious pattern occurs in the lower-cased prompt |
| Validators.InjectionIgnoresCase | src/utils/validators.py:58 | the verdict does not depend on the case of the prompt |
| Validators.SystemPrefixIsFlagged | src/utils/validators.py:48-62 | a prompt containing `system:` in any case is flagged |
| Validators.DigitSuffixStart | src/utils/validators.py:78 | finds the start of the longest digit run ending the text |
| Validators.ValidThreadIdFormatMeaning | src/utils/validators.py:78-79 | the scan accepts exactly the texts the regular expression describes |
| Validators.DefaultTimestampIdsFail | src/utils/validators.py:78-79 | ids with a `YYYYMMDD_HHMMSS` timestamp never pass the format check |
| Supervisor.FirstGroup | src/agents/supervisor.py:69-98 | with no hit the default; otherwise the intent of a group that hits after no earlier one did |
| Supervisor.DetectIntent | src/agents/supervisor.py:56-98 | with no keyword the intent is ddl, otherwise the intent of a group that hits after no earlier one did |
| Supervisor.DetectIntentFirstHit | src/agents/supervisor.py:66-98 | the first group with a keyword in the lower-cased prompt decides the intent |
| Supervisor.FirstGroupFirstHit | src/agents/supervisor.py:69-98 | the first group with a keyword in the text gives the result, even when the default or a later group shares its intent |
| Supervisor.ShowMeIsQa | src/agents/supervisor.py:84-95 | `show me` yields qa when no keyword of the five earlier groups occurs |
| Supervisor.DdlAndDataIsDdl | src/agents/supervisor.py:74-83 | `ddl and data` and `schema and data` yield ddl, not both, when no document-parsing keyword occurs |
| Supervisor.BothOnlyFromCompleteSetup | src/agents/supervisor.py:74-83 | `both` needs `complete setup`, because the ddl group catches the other two phrases first |
| Supervisor.ShowMeNeverSearches | src/agents/supervisor.py:90-95 | `show me` never yields search, because it contains `how` |
| Supervisor.AgentForStoredIntent | src/agents/supervisor.py:142-162 | every stored intent routes to the agent that serves it |
| Supervisor.ShouldContinue | src/agents/supervisor.py:101-162 | end iff ending, approved, or (not waiting and out of iterations); human approval iff waiting and not ending; supervisor iff there is feedback within the limit; otherwise the intent's agent |
| Supervisor.StateDict.SupervisorStep | src/agents/supervisor.py:48-53 | writes the detected intent and nothing else |
| Supervisor.SupervisorThenRoute | src/agents/supervisor.py:48-162 | after the supervisor step, a state with no reason to stop goes to the agent for the detected intent |
| MetadataApi.ListLimit | src/api/v1/metadata.py:106-107 | limits above 100 become 100 and others are kept |
| MetadataApi.SectionOf | src/api/v1/metadata.py:183-190 | a column has no section only when its `section_type` is not a string |
| MetadataApi.InSection | src/api/v1/metadata.py:182-190 | a section holds exactly the columns sectioned into it |
| MetadataApi.SectionsPartition | src/api/v1/metadata.py:182-237 | the three section counts add up to the number of columns |
| MetadataApi.FillDistinct | src/api/v1/metadata.py:217-223 | the fill keeps what it had and adds only new fields, up to five; below five it took them all |
| MetadataApi.SampleFields | src/api/v1/metadata.py:193-226 | the sample has at most five fields |
| MetadataApi.DataDictionary | src/api/v1/metadata.py:146-247 | not found iff no record, no tables or no columns; server error iff a `section_type` is not a string |
| MetadataApi.SampleFromSections | src/api/v1/metadata.py:193-226 | every sample field belongs to one of the sections |
| MetadataApi.HeaderFieldFirst | src/api/v1/metadata.py:196-197 | with a header field, the sample starts with the first one |
| MetadataApi.TrailerFieldIncluded | src/api/v1/metadata.py:200-226 | with a trailer field, the first one is in the sample |
| MetadataApi.BodyFieldsIncluded | src/api/v1/metadata.py:128-226 | with at least two body fields, the first two are in the sample (the documented "at least 2 from body section") |
| MetadataApi.FiveFromFullSections | src/api/v1/metadata.py:193-226 | with a header, a trailer and three body fields, the sample is the first header, the first trailer and the first three body fields |
| MetadataApi.ShortSampleHoldsAll | src/api/v1/metadata.py:209-223 | a sample of fewer than five fields holds every field |
| MetadataApi.DictionaryMeaning | src/api/v1/metadata.py:177-237 | the counts add up to the total columns, and the sample has at most five columns of the first table |
| MetadataApi.BucketColumns | src/api/v1/metadata.py:182-190 | the loop computes exactly the sections |
| MetadataApi.FillSample | src/api/v1/metadata.py:217-223 | the fill loop with `break` computes `FillDistinct` |
| MetadataApi.FirstSample | src/api/v1/metadata.py:193-207 | the first picks |
| MetadataApi.ExtendFromBody | src/api/v1/metadata.py:213-214 | the body loop appends `MoreBody` |
| MetadataApi.PickSamples | src/api/v1/metadata.py:192-226 | the selection computes exactly `SampleFields` |
| MetadataApi.GetDataDictionary | src/api/v1/metadata.py:140-247 | the endpoint computes exactly `DataDictionary` |
| AgentsApi.FirstMatch | src/api/v1/agents.py:200-210 | finds the first column whose id matches, scanning tables then columns; none iff no column matches |
| AgentsApi.UpdateTouchesOneColumn | src/api/v1/agents.py:198-210 | only `field` of the first matching column changes; without a match nothing changes and no column is returned |
| AgentsApi.DocParseResult.ApplyUpdate | src/api/v1/agents.py:195-210 | the nested loop updates the shared tables in place exactly as `Updated` |
| AgentsApi.UpdateCommand | src/api/v1/agents.py:176-183 | a command is parsed only from non-empty feedback that does not approve |
| AgentsApi.FeedbackOutcome | src/api/v1/agents.py:175-306 | fails iff there is a command but the tables are empty; an update is applied iff a command meets a non-empty document; approval ends the workflow; a rejection without a command counts one more iteration; the status follows the command and approval |
| AgentsApi.StageUpdate | src/api/v1/agents.py:185-245 | staging changes the document's tables only by the applied update |
| AgentsApi.SubmitFeedback | src/api/v1/agents.py:175-306 | the staging computes exactly `FeedbackOutcome` and leaves the tables updated or untouched |
| AgentsApi.ThreadStatus | src/api/v1/agents.py:372-380 | awaiting_approval, then failed, then completed, else processing, by flag precedence |
| DocParserAgent.SearchBucket | src/agents/doc_parser_agent.py:110-114 | a bucket read from the text is a non-empty run without whitespace that occurs in it |
| DocParserAgent.SearchBucketLeftmost | src/agents/doc_parser_agent.py:112 | the search returns the group of the leftmost index where `bucket\s+(\S+)` matches |
| DocParserAgent.SearchBucketNone | src/agents/doc_parser_agent.py:112-113 | the search finds nothing iff the pattern matches at no index |
| DocParserAgent.ExtractDocumentInfo | src/agents/doc_parser_agent.py:94-116 | command `parse_document`; a document name iff the prompt mentions fintrac, then the fixed name; the bucket is the default or a whitespace-free run |
| DocParserAgent.ExtractedBucketIsLeftmost | src/agents/doc_parser_agent.py:110-114 | the bucket is the group of the leftmost match in the lower-cased prompt |
| DocParserAgent.UnmatchedBucketIsDefault | src/agents/doc_parser_agent.py:98-114 | with no match anywhere the bucket stays `ses-v1` |
| DocParserAgent.BucketIsLowerCase | src/agents/doc_parser_agent.py:96-112 | the bucket never contains an upper-case letter |
| DocParserAgent.NamedBucketIsRead | src/agents/doc_parser_agent.py:110-114 | a prompt starting `bucket NAME` yields NAME, lower-cased |
| DocParserAgent.InstanceOf | src/agents/doc_parser_agent.py:188 | the first reported instance with the task's id (no earlier instance has it), none iff no instance has its id |
| DocParserAgent.StepFromContinue | src/agents/doc_parser_agent.py:187-197 | a pass that does not fail moves every task by its instance |
| DocParserAgent.StepFromFailure | src/agents/doc_parser_agent.py:187-197 | a failing pass stops at the first failed task, marks it failed and leaves later tasks alone |
| DocParserAgent.InitialStatuses | src/agents/doc_parser_agent.py:172 | every task starts pending |
| DocParserAgent.Polls | src/agents/doc_parser_agent.py:174-204 | the outcome is success, failed or timeout, and success only when every task shows completed |
| DocParserAgent.FailedOnlyOnFailure | src/agents/doc_parser_agent.py:187-204 | the outcome is failed iff some task shows failed |
| DocParserAgent.PollStep | src/agents/doc_parser_agent.py:187-197 | one poll updates the status array in place as `StepFrom` |
| DocParserAgent.AllDone | src/agents/doc_parser_agent.py:200 | true iff every status shows completed |
| DocParserAgent.PollTasks | src/agents/doc_parser_agent.py:157-204 | the poll loop with its early returns computes exactly `Polls` |
| DocParserAgent.PollDagCompletion | src/agents/doc_parser_agent.py:164-204 | the same for the five pipeline tasks |
| DdlValidator.ValidateDdlSafety | src/services/validator.py:76-94 | safe iff none of DROP, DELETE, REVOKE, SHUTDOWN, KILL occurs in the upper-cased statement |
| DdlValidator.DdlVerdictIgnoresCase | src/services/validator.py:88 | the verdict does not depend on the case of the statement |
| DdlValidator.ValidateSyntheticData | src/services/validator.py:50-73 | always reports a valid format, no duplicates and zero scores |

## Left out

- Word loading (python-docx `Document`, paragraph styles, the title fallback of `_extract_document_info` in the parser): tables enter the model as rows of cell texts plus a column count.
- The LLM enrichment of each column (`_enhance_with_llm`, Bedrock): a `ColumnSchema` carries only the fields the parser computes; the enrichment fields are not modelled.
- Logging, the database, HTTP, Airflow, S3, `asyncio.sleep` and the graph's `ainvoke`/`aupdate_state`/`aget_state` calls: I/O with no effect on the modelled values.
- The approval insert into the database in `submit_feedback` (`insert_document_metadata`): database I/O.
- The six feedback regular expressions: which pattern matches and its three groups are given as a search function; the handling after a match is modelled.
- `json.loads` on a bracketed JSON-field value: given as a decoding function; floating-point JSON numbers are not modelled.
- ISO timestamp parsing in `generate_thread_id` (`datetime.fromisoformat`): given as a conversion function; the clock and the uuid tag are parameters.
- Case mapping and the regex classes `\d` and `\w` are ASCII; Unicode letters, digits and case folding are not modelled. Whitespace (`\s`, `strip()`) is Python's full `str.isspace` set.
- DocumentAssembly.ParseRowToColumn: its "parses iff" assumes the enrichment reply is a JSON object whose values the column record accepts; the source also drops a named row whose reply is a JSON list, string, number or null (`.get` raises), because that reply comes from the LLM, which is not modelled.
- The order in which Python iterates `VALID_FIELDS` is a parameter of `ClosestField`; only its membership is fixed.
- Column equality in the sample fill (`field not in sample_fields`) is equality of the modelled JSON objects.
- `iteration_count` stored as None is not modelled; it is an integer.
- Exceptions other than the ones modelled (a `ValueError` from `int()`, the row-parse comparison error, the empty-tables failure of `submit_feedback`, a non-string `section_type`) are not modelled.
- The response body of `submit_feedback` beyond the staged data, the status and the command (`current_state`, `result`) comes from the graph run and is not modelled.
- `_prepare_dag_config`, `_trigger_airflow_dag` and the HTTP status checks of the poll: only the per-poll status update and the outcome are modelled, each poll's answer being an input.
