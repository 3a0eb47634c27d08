/**
 * The feedback command parser (src/agents/feedback_parser.py): turns a
 * sentence such as "update notes for column id 70 as PII" into an update
 * command for one field of one column, and splits longer feedback into
 * several such sentences. The six regular expressions are an input (which of
 * them matches, and the three groups it captures); what the parser does with
 * a match is modelled: field normalisation, alias and partial-name lookup,
 * the column-id conversion and the typed conversion of the value.
 */
module FeedbackParser {
  import opened Wrappers
  import opened Strings
  import opened Scans

  /** A JSON value; `None` is `JNull`. Floating-point numbers are not modelled. */
  datatype Json = JNull | JBool(b: bool) | JInt(i: int) | JStr(s: string)
                | JList(items: seq<Json>) | JObject(fields: map<string, Json>)

  /** `VALID_FIELDS` */
  const ValidFields: set<string> := {
    "column_id", "column_name", "description", "data_type",
    "data_length", "precision", "scale", "nullable",
    "notes", "is_header", "is_body", "is_trailer",
    "allowed_values", "format_hint", "default_value",
    "is_system_generated", "data_classification",
    "foreign_key_table", "foreign_key_column",
    "business_rule", "sample_values", "section"
  }

  /** `BOOLEAN_FIELDS` */
  const BooleanFields: set<string> := {"nullable", "is_header", "is_body", "is_trailer", "is_system_generated"}

  /** `INTEGER_FIELDS` */
  const IntegerFields: set<string> := {"column_id", "data_length", "precision", "scale"}

  /** `JSON_FIELDS` */
  const JsonFields: set<string> := {"allowed_values", "sample_values"}

  /** The aliases `_find_closest_field` consults first. */
  const Aliases: map<string, string> := map[
    "type" := "data_type",
    "length" := "data_length",
    "null" := "nullable",
    "desc" := "description",
    "classification" := "data_classification",
    "fk_table" := "foreign_key_table",
    "fk_column" := "foreign_key_column",
    "rule" := "business_rule",
    "format" := "format_hint",
    "default" := "default_value",
    "values" := "allowed_values",
    "samples" := "sample_values",
    "generated" := "is_system_generated"
  ]

  /** Every alias names a valid field. */
  lemma AliasesAreValid()
    ensures forall a :: a in Aliases ==> Aliases[a] in ValidFields
  {
  }

  /** `order` lists the members of `VALID_FIELDS` in the set's iteration order. */
  ghost predicate IsFieldOrder(order: seq<string>) {
    forall f :: f in order <==> f in ValidFields
  }

  /** `field_lower in valid_field or valid_field in field_lower` */
  predicate Overlaps(fieldLower: string, valid: string) {
    Contains(valid, fieldLower) || Contains(fieldLower, valid)
  }

  /**
   * `_find_closest_field`: the alias of the lower-cased name if it has one,
   * else the first field in iteration order `order` that contains the name
   * or is contained in it, else `None`.
   */
  function ClosestField(field: string, order: seq<string>): (r: Option<string>)
    ensures Lower(field) in Aliases ==> r == Some(Aliases[Lower(field)])
    ensures Lower(field) !in Aliases && r.Some? ==> r.value in order && Overlaps(Lower(field), r.value)
    ensures Lower(field) !in Aliases && r.None? ==> forall f :: f in order ==> !Overlaps(Lower(field), f)
    ensures Lower(field) !in Aliases && r.Some? ==>
              exists k :: 0 <= k < |order| && order[k] == r.value
                          && forall j :: 0 <= j < k ==> !Overlaps(Lower(field), order[j])
  {
    var fieldLower := Lower(field);
    if fieldLower in Aliases then Some(Aliases[fieldLower])
    else
      match FirstWhere(order, valid => Overlaps(fieldLower, valid))
      case None => None
      case Some(k) => Some(order[k])
  }

  /** A found field is always a valid one when `order` is the iteration order of `VALID_FIELDS`. */
  lemma ClosestFieldIsValid(field: string, order: seq<string>)
    requires IsFieldOrder(order) && ClosestField(field, order).Some?
    ensures ClosestField(field, order).value in ValidFields
  {
    AliasesAreValid();
  }

  predicate DigitsOrUnderscores(s: string) {
    forall i :: 0 <= i < |s| ==> IsDigit(s[i]) || s[i] == '_'
  }

  /** The text `int()` accepts after the sign: digits, single underscores only between digits. */
  predicate IntegerDigits(s: string) {
    |s| > 0 && IsDigit(s[0]) && DigitsOrUnderscores(s)
    && forall i :: 0 <= i < |s| && s[i] == '_' ==> i + 1 < |s| && IsDigit(s[i + 1])
  }

  /** Value of digits with underscores between them; underscores are skipped. */
  function GroupedValue(s: string): nat
    requires DigitsOrUnderscores(s)
  {
    if |s| == 0 then 0
    else if s[|s| - 1] == '_' then GroupedValue(s[..|s| - 1])
    else GroupedValue(s[..|s| - 1]) * 10 + DigitValue(s[|s| - 1])
  }

  /** Without underscores the value is the plain decimal value. */
  lemma {:induction false} GroupedValueOfDigits(s: string)
    requires AllDigits(s)
    ensures GroupedValue(s) == DigitsValue(s)
  {
    if |s| > 0 {
      GroupedValueOfDigits(s[..|s| - 1]);
    }
  }

  /**
   * `int(text)`: surrounding whitespace is ignored, one optional sign, then
   * decimal digits with single underscores between them; anything else is
   * the `ValueError` the source catches, here `None`.
   */
  function ParseInt(text: string): (r: Option<int>)
    ensures r.Some? ==> |Strip(text)| > 0
  {
    var t := Strip(text);
    if |t| == 0 then None
    else
      var body := if t[0] == '-' || t[0] == '+' then t[1..] else t;
      if !IntegerDigits(body) then None
      else
        var n: int := GroupedValue(body);
        if t[0] == '-' then Some(-n) else Some(n)
  }

  /** `int(d)` for a plain run of digits reads its decimal value. */
  lemma ParseIntOfDigits(d: string)
    requires |d| > 0 && AllDigits(d)
    ensures ParseInt(d) == Some(DigitsValue(d) as int)
  {
    GroupedValueOfDigits(d);
    StripUnpadded(d);
    assert IntegerDigits(d);
  }

  /** A minus sign and digits have no whitespace to strip. */
  lemma SignedIsUnpadded(d: string)
    requires |d| > 0 && AllDigits(d)
    ensures Strip("-" + d) == "-" + d
  {
    var m := "-" + d;
    assert m[0] == '-' && m[|m| - 1] == d[|d| - 1];
    StripUnpadded(m);
  }

  /** Plain digits are text `int()` accepts. */
  lemma DigitsAreInteger(d: string)
    requires |d| > 0 && AllDigits(d)
    ensures IntegerDigits(d) && GroupedValue(d) == DigitsValue(d)
  {
    GroupedValueOfDigits(d);
  }

  /** `m` is a minus sign followed by the digits `d`, with nothing to strip. */
  predicate NegatedDigits(m: string, d: string) {
    |d| > 0 && AllDigits(d) && |m| > 0 && Strip(m) == m && m[0] == '-' && m[1..] == d
  }

  lemma NegatedShape(d: string)
    requires |d| > 0 && AllDigits(d)
    ensures NegatedDigits("-" + d, d)
  {
    SignedIsUnpadded(d);
    assert ("-" + d)[1..] == d;
  }

  lemma ParseIntNegated(m: string, d: string)
    requires NegatedDigits(m, d)
    ensures ParseInt(m) == Some(-(DigitsValue(d) as int))
  {
    DigitsAreInteger(d);
  }

  /** `int("-" + d)` for a plain run of digits reads the negated value. */
  lemma ParseIntOfNegativeDigits(d: string)
    requires |d| > 0 && AllDigits(d)
    ensures ParseInt("-" + d) == Some(-(DigitsValue(d) as int))
  {
    NegatedShape(d);
    ParseIntNegated("-" + d, d);
  }

  /** `int(str(n))` gives back `n`. */
  lemma ParseIntOfDecimal(n: nat)
    ensures ParseInt(NatToString(n)) == Some(n)
  {
    var d := NatToString(n);
    ParseIntOfDigits(d);
    NatToStringRoundTrip(n);
    assert DigitsValue(d) == n;
  }

  /** `value[1:-1]`, which is empty for a one-character value. */
  function Inner(v: string): (r: string)
    ensures |v| >= 2 ==> v == [v[0]] + r + [v[|v| - 1]]
    ensures |v| < 2 ==> r == []
  {
    if |v| >= 2 then v[1..|v| - 1] else []
  }

  /** One layer of surrounding double quotes, or else of single quotes, removed. */
  function Unquote(v: string): (r: string)
    ensures StartsWith(v, "\"") && EndsWith(v, "\"") ==> r == Inner(v)
    ensures !(StartsWith(v, "\"") && EndsWith(v, "\"")) && StartsWith(v, "'") && EndsWith(v, "'") ==> r == Inner(v)
    ensures !(StartsWith(v, "\"") && EndsWith(v, "\"")) && !(StartsWith(v, "'") && EndsWith(v, "'")) ==> r == v
  {
    if StartsWith(v, "\"") && EndsWith(v, "\"") then Inner(v)
    else if StartsWith(v, "'") && EndsWith(v, "'") then Inner(v)
    else v
  }

  const TrueWords: set<string> := {"true", "yes", "1", "y", "t"}
  const FalseWords: set<string> := {"false", "no", "0", "n", "f"}
  const NullWords: set<string> := {"NULL", "NONE", "N/A"}

  /** `[v.strip() for v in text.split(',')]` */
  function CommaItems(text: string): (r: seq<Json>)
    ensures |r| == |Split(text, ",")|
    ensures forall k :: 0 <= k < |r| ==> r[k] == JStr(Strip(Split(text, ",")[k]))
  {
    var parts := Split(text, ",");
    seq(|parts|, k requires 0 <= k < |parts| => JStr(Strip(parts[k])))
  }

  /**
   * `_process_value` on the already stripped value text. `decodeArray` is
   * `json.loads` on text that starts with '[' and ends with ']': the decoded
   * array's items, or `None` when it is not valid JSON.
   */
  function ProcessValue(field: string, value: string, decodeArray: string -> Option<seq<Json>>): (r: Json)
  {
    var v := Unquote(value);
    if field in BooleanFields then
      if Lower(v) in TrueWords then JBool(true)
      else if Lower(v) in FalseWords then JBool(false)
      else JBool(false)
    else if field in IntegerFields then
      match ParseInt(v)
      case Some(n) => JInt(n)
      case None => JNull
    else if field in JsonFields then
      if StartsWith(v, "[") && EndsWith(v, "]") then
        match decodeArray(v)
        case Some(items) => JList(items)
        case None => JList(CommaItems(Inner(v)))
      else if ',' in v then JList(CommaItems(v))
      else JList([JStr(v)])
    else if Upper(v) in NullWords then JNull
    else JStr(v)
  }

  /** Boolean fields always give a bool: true exactly for the five affirmative words, in any case. */
  lemma BooleanValues(field: string, value: string, decodeArray: string -> Option<seq<Json>>)
    requires field in BooleanFields
    ensures ProcessValue(field, value, decodeArray) == JBool(Lower(Unquote(value)) in TrueWords)
  {
  }

  /** Integer fields give the integer `int()` reads, or `None`. */
  lemma IntegerValues(field: string, value: string, decodeArray: string -> Option<seq<Json>>)
    requires field in IntegerFields
    ensures var r := ProcessValue(field, value, decodeArray);
            match ParseInt(Unquote(value))
            case Some(n) => r == JInt(n)
            case None => r == JNull
  {
    assert field !in BooleanFields;
  }

  /**
   * JSON fields always give a list: the decoded array, else the trimmed
   * comma-separated items, else the value alone.
   */
  lemma JsonValues(field: string, value: string, decodeArray: string -> Option<seq<Json>>)
    requires field in JsonFields
    ensures ProcessValue(field, value, decodeArray).JList?
    ensures var v := Unquote(value);
            StartsWith(v, "[") && EndsWith(v, "]") && decodeArray(v).Some? ==>
              ProcessValue(field, value, decodeArray) == JList(decodeArray(v).value)
    ensures var v := Unquote(value);
            StartsWith(v, "[") && EndsWith(v, "]") && decodeArray(v).None? ==>
              ProcessValue(field, value, decodeArray) == JList(CommaItems(Inner(v)))
    ensures var v := Unquote(value);
            !(StartsWith(v, "[") && EndsWith(v, "]")) && ',' in v ==>
              ProcessValue(field, value, decodeArray) == JList(CommaItems(v))
    ensures var v := Unquote(value);
            !(StartsWith(v, "[") && EndsWith(v, "]")) && ',' !in v ==>
              ProcessValue(field, value, decodeArray) == JList([JStr(v)])
  {
    assert field !in BooleanFields && field !in IntegerFields;
  }

  /** Other fields give `None` for the null words in any case, and the unquoted text otherwise. */
  lemma TextValues(field: string, value: string, decodeArray: string -> Option<seq<Json>>)
    requires field !in BooleanFields && field !in IntegerFields && field !in JsonFields
    ensures var v := Unquote(value);
            ProcessValue(field, value, decodeArray) == if Upper(v) in NullWords then JNull else JStr(v)
  {
  }

  /** A parsed update command; `action` is always "update". */
  datatype Command = Command(action: string, columnId: int, field: string, value: Json, originalFeedback: string)

  /** The three groups a pattern captures, in the order they appear in the pattern. */
  datatype Groups = Groups(first: string, second: string, third: string)

  /** The number of patterns, tried in list order. */
  const PatternCount: nat := 6

  /** (field, column id, value) from the groups of pattern `idx`. */
  function Roles(idx: nat, g: Groups): (string, string, string) {
    if idx == 0 || idx == 5 then (g.first, g.second, g.third)
    else if idx == 1 then (g.first, g.third, g.second)
    else (g.second, g.first, g.third)
  }

  /** The normalised field name, or `None` when it is neither valid nor resolvable. */
  function ResolveField(fieldText: string, order: seq<string>): Option<string> {
    var field := Strip(Lower(fieldText));
    if field in ValidFields then Some(field) else ClosestField(field, order)
  }

  /** A resolved field name is one of the valid fields. */
  lemma ResolvedFieldIsValid(fieldText: string, order: seq<string>)
    requires IsFieldOrder(order)
    ensures ResolveField(fieldText, order).Some? ==> ResolveField(fieldText, order).value in ValidFields
  {
    var field := Strip(Lower(fieldText));
    if field !in ValidFields && ClosestField(field, order).Some? {
      ClosestFieldIsValid(field, order);
    }
  }

  /**
   * What `parse` does with the match of pattern `idx` on the stripped text:
   * a command, or `None` to fall through to the next pattern.
   */
  function Attempt(idx: nat, text: string, search: (nat, string) -> Option<Groups>,
                   order: seq<string>, decodeArray: string -> Option<seq<Json>>): (r: Option<Command>)
    ensures r.Some? ==> r.value.action == "update" && r.value.originalFeedback == text
  {
    match search(idx, text)
    case None => None
    case Some(g) =>
      var (fieldText, idText, valueText) := Roles(idx, g);
      match ResolveField(fieldText, order)
      case None => None
      case Some(field) =>
        match ParseInt(idText)
        case None => None
        case Some(id) => Some(Command("update", id, field, ProcessValue(field, Strip(valueText), decodeArray), text))
  }

  /** The field of a command from any pattern is one of the valid fields. */
  lemma AttemptFieldIsValid(idx: nat, text: string, search: (nat, string) -> Option<Groups>,
                            order: seq<string>, decodeArray: string -> Option<seq<Json>>)
    requires IsFieldOrder(order)
    ensures Attempt(idx, text, search, order, decodeArray).Some? ==>
              Attempt(idx, text, search, order, decodeArray).value.field in ValidFields
  {
    match search(idx, text)
    case None =>
    case Some(g) =>
      var (fieldText, _, _) := Roles(idx, g);
      ResolvedFieldIsValid(fieldText, order);
  }

  /** The first command among `outcomes[idx..]`. */
  function FirstFrom(outcomes: seq<Option<Command>>, idx: nat): (r: Option<Command>)
    decreases |outcomes| - idx
  {
    if idx >= |outcomes| then None
    else if outcomes[idx].Some? then outcomes[idx]
    else FirstFrom(outcomes, idx + 1)
  }

  /**
   * The first command is `None` exactly when every remaining outcome is, and
   * otherwise the outcome of some pattern all of whose predecessors fail.
   */
  lemma {:induction false} FirstFromIsFirst(outcomes: seq<Option<Command>>, idx: nat)
    ensures var r := FirstFrom(outcomes, idx);
            (r.None? <==> forall j :: idx <= j < |outcomes| ==> outcomes[j].None?)
            && (r.Some? ==> exists k :: idx <= k < |outcomes| && r == outcomes[k]
                                        && forall j :: idx <= j < k ==> outcomes[j].None?)
    decreases |outcomes| - idx
  {
    if idx < |outcomes| && outcomes[idx].None? {
      FirstFromIsFirst(outcomes, idx + 1);
    }
  }

  /** The outcome of every pattern, in the order `parse` tries them. */
  function Attempts(text: string, search: (nat, string) -> Option<Groups>,
                    order: seq<string>, decodeArray: string -> Option<seq<Json>>): (r: seq<Option<Command>>)
    ensures |r| == PatternCount
  {
    seq(PatternCount, i requires 0 <= i => Attempt(i, text, search, order, decodeArray))
  }

  /** Outcome `k` is the attempt of pattern `k`. */
  lemma AttemptAt(k: nat, text: string, search: (nat, string) -> Option<Groups>,
                  order: seq<string>, decodeArray: string -> Option<seq<Json>>)
    requires k < PatternCount
    ensures Attempts(text, search, order, decodeArray)[k] == Attempt(k, text, search, order, decodeArray)
  {
  }

  /** `parse`: `None` for blank feedback, else the first pattern that yields a command. */
  function ParseCommand(feedback: string, search: (nat, string) -> Option<Groups>,
                        order: seq<string>, decodeArray: string -> Option<seq<Json>>): (r: Option<Command>)
    ensures Strip(feedback) == [] ==> r.None?
  {
    if Strip(feedback) == [] then None
    else FirstFrom(Attempts(Strip(feedback), search, order, decodeArray), 0)
  }

  /** A command `parse` returns is the attempt of one of the patterns on the stripped text. */
  lemma ParseCommandIsAttempt(feedback: string, search: (nat, string) -> Option<Groups>,
                              order: seq<string>, decodeArray: string -> Option<seq<Json>>)
    requires ParseCommand(feedback, search, order, decodeArray).Some?
    ensures exists k :: 0 <= k < PatternCount
                        && ParseCommand(feedback, search, order, decodeArray) == Attempt(k, Strip(feedback), search, order, decodeArray)
  {
    var text := Strip(feedback);
    var outcomes := Attempts(text, search, order, decodeArray);
    assert ParseCommand(feedback, search, order, decodeArray) == FirstFrom(outcomes, 0);
    FirstFromIsFirst(outcomes, 0);
    var k :| 0 <= k < PatternCount && FirstFrom(outcomes, 0) == outcomes[k];
    AttemptAt(k, text, search, order, decodeArray);
    assert ParseCommand(feedback, search, order, decodeArray) == Attempt(k, text, search, order, decodeArray);
  }

  /**
   * Every command `parse` returns is an update of a valid field and carries
   * the stripped feedback.
   */
  lemma ParsedCommandsAreValid(feedback: string, search: (nat, string) -> Option<Groups>,
                               order: seq<string>, decodeArray: string -> Option<seq<Json>>)
    requires IsFieldOrder(order)
    requires ParseCommand(feedback, search, order, decodeArray).Some?
    ensures var c := ParseCommand(feedback, search, order, decodeArray).value;
            c.action == "update" && c.field in ValidFields && c.originalFeedback == Strip(feedback)
  {
    ParseCommandIsAttempt(feedback, search, order, decodeArray);
    var k :| 0 <= k < PatternCount
             && ParseCommand(feedback, search, order, decodeArray) == Attempt(k, Strip(feedback), search, order, decodeArray);
    AttemptFieldIsValid(k, Strip(feedback), search, order, decodeArray);
  }

  /** The body of the pattern loop for pattern `idx`: a command, or `None` where the source continues. */
  method TryPattern(idx: nat, text: string, search: (nat, string) -> Option<Groups>,
                    order: seq<string>, decodeArray: string -> Option<seq<Json>>) returns (r: Option<Command>)
    ensures r == Attempt(idx, text, search, order, decodeArray)
  {
    var m := search(idx, text);
    if m.None? {
      return None;
    }
    var (fieldText, columnIdText, valueText) := Roles(idx, m.value);
    var field := Strip(Lower(fieldText));
    if field !in ValidFields {
      var closest := ClosestField(field, order);
      if closest.None? {
        assert ResolveField(fieldText, order).None?;
        return None;
      }
      field := closest.value;
    }
    assert ResolveField(fieldText, order) == Some(field);
    var columnId := ParseInt(columnIdText);
    if columnId.None? {
      return None;
    }
    var value := ProcessValue(field, Strip(valueText), decodeArray);
    return Some(Command("update", columnId.value, field, value, text));
  }

  /** `parse`: the loop over the patterns, with early return on the first command. */
  method Parse(feedback: string, search: (nat, string) -> Option<Groups>,
               order: seq<string>, decodeArray: string -> Option<seq<Json>>) returns (r: Option<Command>)
    ensures r == ParseCommand(feedback, search, order, decodeArray)
  {
    var text := Strip(feedback);
    if text == [] {
      return None;
    }
    ghost var outcomes := Attempts(text, search, order, decodeArray);
    var idx := 0;
    while idx < PatternCount
      invariant 0 <= idx <= PatternCount
      invariant FirstFrom(outcomes, 0) == FirstFrom(outcomes, idx)
    {
      var found := TryPattern(idx, text, search, order, decodeArray);
      AttemptAt(idx, text, search, order, decodeArray);
      if found.Some? {
        return found;
      }
      idx := idx + 1;
    }
    return None;
  }

  /** Characters that separate commands on their own. */
  predicate IsListSeparator(c: char) {
    c == ';' || c == ',' || c == '\n'
  }

  /**
   * Length of the separator `[;,\n]|and\s+` (case-insensitive) that starts
   * at index `i`, or 0 when none does; `\s+` takes the whole run of whitespace.
   */
  function SeparatorAt(s: string, i: nat): (n: nat)
    requires i < |s|
    ensures i + n <= |s|
    ensures IsListSeparator(s[i]) ==> n == 1
  {
    if IsListSeparator(s[i]) then 1
    else if i + 3 < |s| && Lower(s[i..i + 3]) == "and" && IsSpace(s[i + 3]) then 3 + SpaceRun(s, i + 3)
    else 0
  }

  /** `re.split` of `s[start..]` on the separators, scanning for the next one from `i`. */
  function SplitFrom(s: string, start: nat, i: nat): (parts: seq<string>)
    requires start <= i <= |s|
    ensures |parts| >= 1
    decreases |s| - i
  {
    if i == |s| then [s[start..]]
    else
      var n := SeparatorAt(s, i);
      if n == 0 then SplitFrom(s, start, i + 1)
      else [s[start..i]] + SplitFrom(s, i + n, i + n)
  }

  /** `re.split(r'[;,\n]|and\s+', feedback, flags=re.IGNORECASE)` */
  function SplitCommands(feedback: string): seq<string> {
    SplitFrom(feedback, 0, 0)
  }

  /** No part of a split holds `;`, `,` or a newline. */
  lemma {:induction false} SplitFromHasNoSeparators(s: string, start: nat, i: nat)
    requires start <= i <= |s|
    requires forall x :: start <= x < i ==> !IsListSeparator(s[x])
    ensures forall k, x :: 0 <= k < |SplitFrom(s, start, i)| && 0 <= x < |SplitFrom(s, start, i)[k]|
                           ==> !IsListSeparator(SplitFrom(s, start, i)[k][x])
    decreases |s| - i
  {
    if i < |s| {
      var n := SeparatorAt(s, i);
      if n == 0 {
        SplitFromHasNoSeparators(s, start, i + 1);
      } else {
        SplitFromHasNoSeparators(s, i + n, i + n);
        var parts := SplitFrom(s, start, i);
        var rest := SplitFrom(s, i + n, i + n);
        assert parts == [s[start..i]] + rest;
        forall k, x | 0 <= k < |parts| && 0 <= x < |parts[k]| ensures !IsListSeparator(parts[k][x]) {
          if k == 0 {
            assert parts[0][x] == s[start + x];
          } else {
            assert parts[k] == rest[k - 1];
          }
        }
      }
    }
  }

  /** Every part of the split feedback is free of `;`, `,` and newlines. */
  lemma SplitCommandsHaveNoSeparators(feedback: string)
    ensures forall k, x :: 0 <= k < |SplitCommands(feedback)| && 0 <= x < |SplitCommands(feedback)[k]|
                           ==> !IsListSeparator(SplitCommands(feedback)[k][x])
  {
    SplitFromHasNoSeparators(feedback, 0, 0);
  }

  /** The commands of the parts that parse, in order. */
  function ParseAll(parts: seq<string>, search: (nat, string) -> Option<Groups>,
                    order: seq<string>, decodeArray: string -> Option<seq<Json>>): (r: seq<Command>)
    ensures |r| <= |parts|
  {
    if |parts| == 0 then []
    else
      ParseAll(parts[..|parts| - 1], search, order, decodeArray)
      + match ParseCommand(parts[|parts| - 1], search, order, decodeArray)
        case Some(c) => [c]
        case None => []
  }

  /**
   * Every command `parse_multiple` collects is what `parse` gives for one of
   * the parts: an update of a valid field carrying that part, stripped.
   */
  lemma {:induction false} ParseAllValid(parts: seq<string>, search: (nat, string) -> Option<Groups>,
                                         order: seq<string>, decodeArray: string -> Option<seq<Json>>)
    requires IsFieldOrder(order)
    ensures forall c :: c in ParseAll(parts, search, order, decodeArray) ==>
              c.action == "update" && c.field in ValidFields
              && exists k :: 0 <= k < |parts| && c.originalFeedback == Strip(parts[k])
                             && ParseCommand(parts[k], search, order, decodeArray) == Some(c)
  {
    if |parts| > 0 {
      var init := parts[..|parts| - 1];
      var last := parts[|parts| - 1];
      ParseAllValid(init, search, order, decodeArray);
      forall c | c in ParseAll(parts, search, order, decodeArray)
        ensures c.action == "update" && c.field in ValidFields
                && exists k :: 0 <= k < |parts| && c.originalFeedback == Strip(parts[k])
                               && ParseCommand(parts[k], search, order, decodeArray) == Some(c)
      {
        if c in ParseAll(init, search, order, decodeArray) {
          var k :| 0 <= k < |init| && c.originalFeedback == Strip(init[k])
                   && ParseCommand(init[k], search, order, decodeArray) == Some(c);
          assert init[k] == parts[k];
        } else {
          assert ParseCommand(last, search, order, decodeArray) == Some(c);
          ParsedCommandsAreValid(last, search, order, decodeArray);
          assert parts[|parts| - 1] == last;
        }
      }
    }
  }

  /** One more part extends the collected commands by that part's command, if any. */
  lemma ParseAllStep(parts: seq<string>, k: nat, search: (nat, string) -> Option<Groups>,
                     order: seq<string>, decodeArray: string -> Option<seq<Json>>)
    requires k < |parts|
    ensures ParseAll(parts[..k + 1], search, order, decodeArray)
            == ParseAll(parts[..k], search, order, decodeArray)
               + match ParseCommand(parts[k], search, order, decodeArray)
                 case Some(c) => [c]
                 case None => []
  {
    assert parts[..k + 1][..k] == parts[..k];
  }

  /** `parse_multiple`: split the feedback, parse every part, keep the commands. */
  method ParseMultiple(feedback: string, search: (nat, string) -> Option<Groups>,
                       order: seq<string>, decodeArray: string -> Option<seq<Json>>)
    returns (commands: seq<Command>)
    ensures commands == ParseAll(SplitCommands(feedback), search, order, decodeArray)
  {
    var parts := SplitCommands(feedback);
    commands := [];
    for k := 0 to |parts|
      invariant commands == ParseAll(parts[..k], search, order, decodeArray)
    {
      var parsed := Parse(parts[k], search, order, decodeArray);
      ParseAllStep(parts, k, search, order, decodeArray);
      if parsed.Some? {
        commands := commands + [parsed.value];
      }
    }
    assert parts[..|parts|] == parts;
  }
}
