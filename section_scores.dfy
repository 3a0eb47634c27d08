/**
 * The per-field scores behind the header/body/trailer split of a
 * specification document (document_parser.py, `_extract_classification_tables`,
 * the scoring part). A field name earns header, trailer and body points from
 * the words it contains and from where it sits: its row within its table and
 * its table among the specification tables.
 */
module SectionScores {
  import opened Strings
  import opened ColumnTypes

  datatype Scores = Scores(header: nat, body: nat, trailer: nat)

  /**
   * Where a field sits: its 1-based data row `rowIdx` out of `totalRows`
   * data rows, and its 0-based specification table `specIdx` out of
   * `totalSpec`.
   */
  datatype Position = Position(rowIdx: nat, totalRows: nat, specIdx: nat, totalSpec: nat)

  /**
   * `num / den < tenths / 10`, where an empty denominator stands for the
   * ratio 0.5. Written with cross-multiplication, which agrees with the
   * floating-point comparison for any realistic table size.
   */
  predicate RatioBelow(num: nat, den: nat, tenths: nat) {
    if den > 0 then 10 * num < tenths * den else 5 < tenths
  }

  /** `num / den > tenths / 10`, with the same convention. */
  predicate RatioAbove(num: nat, den: nat, tenths: nat) {
    if den > 0 then 10 * num > tenths * den else 5 > tenths
  }

  /** One of the header words occurs in `n`. */
  predicate HeaderWord(n: string) {
    Contains(n, "header") || Contains(n, "file") || Contains(n, "source") || Contains(n, "batch") || Contains(n, "ingest")
  }

  /** One of the trailer words occurs in `n`. */
  predicate TrailerWord(n: string) {
    Contains(n, "total") || Contains(n, "count") || Contains(n, "sum")
    || Contains(n, "trailer") || Contains(n, "quality") || Contains(n, "check")
  }

  /** A data-quality or exception word occurs in `n`. */
  predicate ExceptionWord(n: string) {
    Contains(n, "quality") || Contains(n, "rejection") || Contains(n, "replay")
  }

  /** The five groups of business words, each worth three body points. */
  predicate MoneyWord(n: string) {
    Contains(n, "amount") || Contains(n, "currency") || Contains(n, "date") || Contains(n, "time") || Contains(n, "status")
  }

  predicate PartyWord(n: string) {
    Contains(n, "beneficiary") || Contains(n, "originating") || Contains(n, "institution") || Contains(n, "account")
  }

  predicate ContactWord(n: string) {
    Contains(n, "address") || Contains(n, "city") || Contains(n, "country")
    || Contains(n, "postal") || Contains(n, "phone") || Contains(n, "email")
  }

  predicate TransferWord(n: string) {
    Contains(n, "transaction") || Contains(n, "payment") || Contains(n, "transfer") || Contains(n, "instruction")
  }

  predicate ScreeningWord(n: string) {
    Contains(n, "screening") || Contains(n, "sanctions") || Contains(n, "peps") || Contains(n, "adverse")
  }

  /** The exact names that are strong header indicators, and the points each earns. */
  function StrongHeaderPoints(n: string): (r: nat)
    ensures r <= 10
  {
    if n == "header_id" then 10
    else if n == "subheader_id" then 10
    else if n == "source_system_name" || n == "source_file_name" || n == "ingest_batch_id" then 8
    else if n == "extraction_timestamp" || n == "file_created_timestamp"
         || n == "processing_date" || n == "source_line_number" then 7
    else 0
  }

  /** The exact names that are strong trailer indicators, and the points each earns. */
  function StrongTrailerPoints(n: string): (r: nat)
    ensures r <= 10
  {
    if n == "total_amount" || n == "total_records" || n == "record_count" then 10
    else if n == "quality_check_flag_text" || n == "rejection_reason_text" || n == "replay_reference_text" then 8
    else 0
  }

  /** Which name rules fire for a lower-cased field name. */
  datatype Signals = Signals(
    strongHeader: nat,      // points for an exact header name
    headerWord: bool,       // a header word occurs
    sourcePrefix: bool,     // starts with `source_`
    timestampSuffix: bool,  // ends with `_timestamp`
    strongTrailer: nat,     // points for an exact trailer name
    trailerWord: bool,      // a trailer word occurs
    totalPrefix: bool,      // starts with `total_`
    trailerSuffix: bool,    // ends with `_total`, `_count` or `_sum`
    exceptionWord: bool,    // `quality`, `rejection` or `replay` occurs
    bodyGroups: nat)        // how many groups of business words occur

  /** How many groups of business words occur in `n`. */
  function BodyGroups(n: string): (g: nat)
    ensures g <= 5
  {
    (if MoneyWord(n) then 1 else 0)
    + (if PartyWord(n) then 1 else 0)
    + (if ContactWord(n) then 1 else 0)
    + (if TransferWord(n) then 1 else 0)
    + (if ScreeningWord(n) then 1 else 0)
  }

  function SignalsOf(n: string): Signals {
    Signals(StrongHeaderPoints(n), HeaderWord(n), StartsWith(n, "source_"), EndsWith(n, "_timestamp"),
            StrongTrailerPoints(n), TrailerWord(n), StartsWith(n, "total_"),
            EndsWith(n, "_total") || EndsWith(n, "_count") || EndsWith(n, "_sum"),
            ExceptionWord(n), BodyGroups(n))
  }

  /** The header score: the name rules plus the early-timestamp and early-field bonuses. */
  function HeaderScore(sig: Signals, p: Position): nat {
    sig.strongHeader
    + (if sig.headerWord then 4 else 0)
    + (if sig.sourcePrefix then 3 else 0)
    + (if sig.timestampSuffix && RatioBelow(p.rowIdx, p.totalRows, 3) then 2 else 0)
    + (if RatioBelow(p.rowIdx, p.totalRows, 1) && RatioBelow(p.specIdx, p.totalSpec, 5) then 2 else 0)
  }

  /** The trailer score: the name rules plus the late-field bonus. */
  function TrailerScore(sig: Signals, p: Position): nat {
    sig.strongTrailer
    + (if sig.trailerWord then 4 else 0)
    + (if sig.totalPrefix then 5 else 0)
    + (if sig.trailerSuffix then 5 else 0)
    + (if sig.exceptionWord then 4 else 0)
    + (if RatioAbove(p.rowIdx, p.totalRows, 9) && RatioAbove(p.specIdx, p.totalSpec, 5) then 2 else 0)
  }

  /** Body points are the group points plus two when neither other score reaches three. */
  function Combine(header: nat, groupPoints: nat, trailer: nat): Scores {
    Scores(header, groupPoints + (if header < 3 && trailer < 3 then 2 else 0), trailer)
  }

  /** The three scores of a field with signals `sig` at position `p`. */
  function ScoresFrom(sig: Signals, p: Position): Scores {
    Combine(HeaderScore(sig, p), 3 * sig.bodyGroups, TrailerScore(sig, p))
  }

  /** The scores of a lower-cased field name `n` at position `p`. */
  function ScoresOf(n: string, p: Position): Scores {
    ScoresFrom(SignalsOf(n), p)
  }

  /** The scores of field `name` at position `p`: the name is compared in lower case. */
  function ScoreField(name: string, p: Position): Scores {
    ScoresOf(Lower(name), p)
  }

  /**
   * The highest of the three scores (`max_score`). Neither the source nor the
   * model reads it again: steps 4 and 5 rank on the scores themselves.
   */
  function MaxScore(s: Scores): (m: nat)
    ensures m >= s.header && m >= s.body && m >= s.trailer
    ensures m == s.header || m == s.body || m == s.trailer
  {
    if s.header >= s.body && s.header >= s.trailer then s.header
    else if s.body >= s.trailer then s.body
    else s.trailer
  }

  /** The score a section earned. */
  function ScoreFor(s: Scores, c: Section): nat {
    match c
    case Header => s.header
    case Body => s.body
    case Trailer => s.trailer
  }

  /**
   * The provisional section: the one with the highest score, the first of
   * header, body, trailer on a tie. Like `MaxScore`, it is computed and then
   * never read: the final sections come from the rankings alone.
   */
  function Provisional(s: Scores): (c: Section)
    ensures ScoreFor(s, c) == MaxScore(s)
    ensures c == Body ==> s.header < s.body
    ensures c == Trailer ==> s.header < s.trailer && s.body < s.trailer
  {
    if s.header >= s.body && s.header >= s.trailer then Header
    else if s.body >= s.trailer then Body
    else Trailer
  }

  /**
   * A field gets the two default body points exactly when neither its header
   * nor its trailer score reaches three; they are the only body points that
   * are not a multiple of three.
   */
  lemma DefaultBodyPoints(n: string, p: Position)
    ensures ScoresOf(n, p).body % 3 == 2 <==> ScoresOf(n, p).header < 3 && ScoresOf(n, p).trailer < 3
    ensures ScoresOf(n, p).body <= 17
  {
    var sig := SignalsOf(n);
    CombineDefault(HeaderScore(sig, p), 3 * sig.bodyGroups, TrailerScore(sig, p));
  }

  lemma CombineDefault(header: nat, groupPoints: nat, trailer: nat)
    requires groupPoints % 3 == 0 && groupPoints <= 15
    ensures Combine(header, groupPoints, trailer).body % 3 == 2 <==> header < 3 && trailer < 3
    ensures Combine(header, groupPoints, trailer).body <= 17
  {
  }

  /** Scores never exceed the sum of their rules. */
  lemma ScoreBounds(n: string, p: Position)
    ensures ScoresOf(n, p).header <= 21
    ensures ScoresOf(n, p).trailer <= 30
  {
    var sig := SignalsOf(n);
    assert sig.strongHeader <= 10 && sig.strongTrailer <= 10;
  }

  /**
   * Moving a field to another row or table changes its header score by at
   * most four and its trailer score by at most two, and its body score only
   * by the default bonus: the name decides the rest.
   */
  lemma PositionMattersLittle(n: string, p: Position, q: Position)
    ensures ScoresOf(n, p).header <= ScoresOf(n, q).header + 4
    ensures ScoresOf(n, p).trailer <= ScoresOf(n, q).trailer + 2
    ensures 3 * BodyGroups(n) <= ScoresOf(n, p).body <= 3 * BodyGroups(n) + 2
  {
  }

  /** The name is scored in lower case, so its spelling's case does not matter. */
  lemma ScoreFieldIgnoresCase(name: string, p: Position)
    ensures ScoreField(Upper(name), p) == ScoreField(name, p)
    ensures ScoreField(Lower(name), p) == ScoreField(name, p)
  {
    LowerOfUpper(name);
    assert Lower(Lower(name)) == Lower(name);
  }

  /** The exact header names `header_id` and `subheader_id` contain `header`, so they score at least 14. */
  lemma HeaderIdScores(n: string, p: Position)
    requires StrongHeaderPoints(n) == 10
    ensures ScoresOf(n, p).header >= 14
  {
    if n == "header_id" {
      ContainsWitness(n, "header", 0);
    } else {
      ContainsWitness(n, "header", 3);
    }
  }

  /**
   * The three strongest trailer names each also contain a trailer word and
   * have a `total_` prefix or a `_count` suffix, so their trailer score (at
   * least 19) beats any body score: they are never provisionally body.
   */
  lemma StrongTrailerNamesAreNotBody(n: string, p: Position)
    requires StrongTrailerPoints(n) == 10
    ensures ScoresOf(n, p).trailer >= 19
    ensures Provisional(ScoresOf(n, p)) != Body
  {
    if n == "record_count" {
      ContainsWitness(n, "count", 7);
      assert EndsWith(n, "_count");
    } else {
      ContainsWitness(n, "total", 0);
      assert StartsWith(n, "total_");
    }
    DefaultBodyPoints(n, p);
  }

  /** `account` contains `count`: an account field always earns the trailer-word points. */
  lemma AccountIsTrailerWord(n: string)
    requires Contains(n, "account")
    ensures TrailerWord(n) && PartyWord(n)
  {
    ContainsAt(n, "account");
    var i :| OccursAt(n, "account", i);
    assert n[i + 2..i + 7] == n[i..i + 7][2..] == "count";
    ContainsWitness(n, "count", i + 2);
  }

  /**
   * So an account field with no header word, no other business word and no
   * exact trailer name is provisionally trailer, not body, wherever it sits.
   */
  lemma AccountLeansTrailer(n: string, p: Position)
    requires Contains(n, "account") && BodyGroups(n) == 1
    requires StrongHeaderPoints(n) == 0 && !HeaderWord(n) && !StartsWith(n, "source_") && !EndsWith(n, "_timestamp")
    ensures ScoresOf(n, p).body == 3
    ensures ScoresOf(n, p).trailer >= 4
    ensures Provisional(ScoresOf(n, p)) == Trailer
  {
    AccountIsTrailerWord(n);
  }

  /**
   * A name that fires no name rule scores only the two default body points;
   * in the first tenth of a table in the first half of the tables it also
   * scores two header points, and the tie goes to header.
   */
  lemma PlainNameTie(n: string, p: Position)
    requires SignalsOf(n) == Signals(0, false, false, false, 0, false, false, false, false, 0)
    ensures ScoresOf(n, p).body == 2
    ensures ScoresOf(n, p).trailer <= 2
    ensures Provisional(ScoresOf(n, p)) == Header
        <==> RatioBelow(p.rowIdx, p.totalRows, 1) && RatioBelow(p.specIdx, p.totalSpec, 5)
  {
  }
}
