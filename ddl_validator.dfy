/**
 * The DDL safety check of `Validator` (src/services/validator.py): a
 * case-insensitive substring scan for five dangerous keywords, and the
 * constant verdict the synthetic-data check returns.
 */
module DdlValidator {
  import opened Wrappers
  import opened Strings
  import opened Scans

  /** Keywords rejected anywhere in a statement, in the order they are tried. */
  const DangerousOps: seq<string> := ["DROP", "DELETE", "REVOKE", "SHUTDOWN", "KILL"]

  function DangerMessage(op: string): string {
    "Dangerous operation detected: " + op
  }

  /** `op in ddl_statement.upper()` */
  predicate OccursUpper(ddl: string, op: string) {
    Contains(Upper(ddl), op)
  }

  /** The scan over the already upper-cased statement. */
  function FirstDangerousOp(upper: string): Option<nat> {
    FirstWhere(DangerousOps, op => Contains(upper, op))
  }

  /**
   * `validate_ddl_safety`: `(True, None)` when no keyword occurs in the
   * upper-cased statement (even inside a longer word), otherwise `False` and
   * the message naming the first keyword in list order that does occur.
   */
  function ValidateDdlSafety(ddl: string): (r: (bool, Option<string>))
    ensures r.0 <==> forall k :: 0 <= k < |DangerousOps| ==> !OccursUpper(ddl, DangerousOps[k])
    ensures r.0 ==> r.1 == None
    ensures !r.0 ==> exists k :: 0 <= k < |DangerousOps| && OccursUpper(ddl, DangerousOps[k])
                                && r.1 == Some(DangerMessage(DangerousOps[k]))
                                && forall j :: 0 <= j < k ==> !OccursUpper(ddl, DangerousOps[j])
  {
    match FirstDangerousOp(Upper(ddl))
    case None => (true, None)
    case Some(k) => (false, Some(DangerMessage(DangerousOps[k])))
  }

  /** The verdict does not depend on the case of the statement. */
  lemma DdlVerdictIgnoresCase(ddl: string)
    ensures ValidateDdlSafety(Lower(ddl)) == ValidateDdlSafety(ddl)
  {
    UpperOfLower(ddl);
  }

  /** The scores `validate_synthetic_data` reports; the two ratios are always 0.0. */
  datatype DataScores = DataScores(formatValid: bool, noDuplicates: bool,
                                   edgeCasesCovered: real, overallScore: real)

  /** `validate_synthetic_data` ignores its inputs and reports a constant verdict. */
  function ValidateSyntheticData<D, M>(data: D, metadata: M): (r: DataScores)
    ensures r.formatValid && r.noDuplicates
    ensures r.edgeCasesCovered == 0.0 && r.overallScore == 0.0
  {
    DataScores(true, true, 0.0, 0.0)
  }
}
