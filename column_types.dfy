/**
 * Per-column decoding in the document parser service: the SQL type
 * decomposer, the nullable flag and the name-pattern section classifier
 * used for columns the global classification map does not know.
 */
module ColumnTypes {
  import opened Wrappers
  import opened Strings

  /** The three record zones a field can belong to. */
  datatype Section = Header | Body | Trailer

  /** The `{is_header, is_body, is_trailer}` dictionary. */
  datatype Flags = Flags(isHeader: bool, isBody: bool, isTrailer: bool)

  predicate ExactlyOne(f: Flags) {
    (if f.isHeader then 1 else 0) + (if f.isBody then 1 else 0) + (if f.isTrailer then 1 else 0) == 1
  }

  function FlagsOf(s: Section): (f: Flags)
    ensures ExactlyOne(f)
    ensures f.isHeader <==> s == Header
    ensures f.isBody <==> s == Body
    ensures f.isTrailer <==> s == Trailer
  {
    Flags(s == Header, s == Body, s == Trailer)
  }

  // ---------------------------------------------------------------------
  // _parse_data_type
  // ---------------------------------------------------------------------

  /** `(data_type, data_length, precision, scale)` */
  datatype TypeInfo = TypeInfo(baseType: string, length: Option<nat>, precision: Option<nat>, scale: Option<nat>)

  /** First index at or after `i` that is not whitespace (regex `\s*`). */
  function SkipSpaces(s: string, i: nat): (j: nat)
    requires i <= |s|
    ensures i <= j <= |s|
    ensures forall k :: i <= k < j ==> IsSpace(s[k])
    ensures j < |s| ==> !IsSpace(s[j])
    decreases |s| - i
  {
    if i < |s| && IsSpace(s[i]) then SkipSpaces(s, i + 1) else i
  }

  /** End of the longest digit run starting at `i` (regex `\d+`, greedy). */
  function DigitsEnd(s: string, i: nat): (j: nat)
    requires i <= |s|
    ensures i <= j <= |s|
    ensures AllDigits(s[i..j])
    ensures j < |s| ==> !IsDigit(s[j])
    decreases |s| - i
  {
    if i < |s| && IsDigit(s[i]) then DigitsEnd(s, i + 1) else i
  }

  /** The alternative of `(A|B)` that `re.match` takes at the start of `s`. */
  function MatchKeyword(s: string, alternatives: seq<string>): (r: Option<string>)
    ensures r.Some? ==> r.value in alternatives && StartsWith(s, r.value)
    ensures r.None? ==> forall k :: 0 <= k < |alternatives| ==> !StartsWith(s, alternatives[k])
  {
    if |alternatives| == 0 then None
    else if StartsWith(s, alternatives[0]) then Some(alternatives[0])
    else
      var r := MatchKeyword(s, alternatives[1..]);
      assert forall k :: 1 <= k < |alternatives| ==> alternatives[k] == alternatives[1..][k - 1];
      r
  }

  /** Regex `\s*\((\d+)` from index `i`: the digits and the index after them. */
  function OpenNumber(s: string, i: nat): (r: Option<(string, nat)>)
    requires i <= |s|
    ensures r.Some? ==> SkipSpaces(s, i) < |s| && s[SkipSpaces(s, i)] == '('
    ensures r.Some? ==> |r.value.0| > 0 && AllDigits(r.value.0) && r.value.1 <= |s|
  {
    var j := SkipSpaces(s, i);
    if j < |s| && s[j] == '(' then
      var k := DigitsEnd(s, j + 1);
      if k > j + 1 then Some((s[j + 1..k], k)) else None
    else None
  }

  /** `re.match(r'(VARCHAR|CHAR)\s*\((\d+)\)', s)` */
  function MatchLength(s: string): Option<(string, nat)> {
    match MatchKeyword(s, ["VARCHAR", "CHAR"])
    case None => None
    case Some(kw) =>
      match OpenNumber(s, |kw|)
      case None => None
      case Some((digits, k)) => if k < |s| && s[k] == ')' then Some((kw, DigitsValue(digits))) else None
  }

  /** Regex `\s*,\s*(\d+)\)` from index `k`: the scale. */
  function ScaleTail(s: string, k: nat): (r: Option<string>)
    requires k <= |s|
    ensures r.Some? ==> |r.value| > 0 && AllDigits(r.value)
  {
    var c := SkipSpaces(s, k);
    if c < |s| && s[c] == ',' then
      var d := SkipSpaces(s, c + 1);
      var e := DigitsEnd(s, d);
      if e > d && e < |s| && s[e] == ')' then Some(s[d..e]) else None
    else None
  }

  /** `re.match(r'(DECIMAL|NUMERIC)\s*\((\d+)\s*,\s*(\d+)\)', s)` */
  function MatchPrecisionScale(s: string): Option<(string, nat, nat)> {
    match MatchKeyword(s, ["DECIMAL", "NUMERIC"])
    case None => None
    case Some(kw) =>
      match OpenNumber(s, |kw|)
      case None => None
      case Some((precision, k)) =>
        match ScaleTail(s, k)
        case None => None
        case Some(scale) => Some((kw, DigitsValue(precision), DigitsValue(scale)))
  }

  /** `re.match(r'(DECIMAL|NUMERIC)\s*\((\d+)\)', s)` */
  function MatchPrecision(s: string): Option<(string, nat)> {
    match MatchKeyword(s, ["DECIMAL", "NUMERIC"])
    case None => None
    case Some(kw) =>
      match OpenNumber(s, |kw|)
      case None => None
      case Some((digits, k)) => if k < |s| && s[k] == ')' then Some((kw, DigitsValue(digits))) else None
  }

  /** No lower-case ASCII letter anywhere in `s`. */
  predicate NoLower(s: string) { forall i :: 0 <= i < |s| ==> !IsLowerLetter(s[i]) }

  lemma StripKeepsNoLower(s: string)
    requires NoLower(s)
    ensures NoLower(Strip(s))
  {
    var k := StripOffset(s);
    assert forall j :: 0 <= j < |Strip(s)| ==> Strip(s)[j] == s[k + j];
  }

  /** `i` is where `u.split('(')[0]` ends: the first `(`, or the end of `u` when there is none. */
  predicate FirstParenAt(u: string, i: nat) {
    i <= |u| && (i == |u| || u[i] == '(') && forall j :: 0 <= j < i ==> u[j] != '('
  }

  /** `Find` of `(` stops exactly where `FirstParenAt` says. */
  lemma FindParen(u: string, i: nat)
    requires FirstParenAt(u, i)
    ensures (match Find(u, "(") case None => u case Some(k) => u[..k]) == u[..i]
  {
    forall j | 0 <= j < i ensures !OccursAt(u, "(", j) {
      assert u[j..j + 1][0] == u[j];
    }
    if i < |u| {
      assert u[i..i + 1] == "(";
      assert OccursAt(u, "(", i);
      var k := Find(u, "(").value;
      assert u[k..k + 1][0] == u[k];
    } else {
      forall j ensures !OccursAt(u, "(", j) {
        if 0 <= j && j + 1 <= |u| { assert u[j..j + 1][0] == u[j]; }
      }
    }
  }

  /** `u.split('(')[0].strip()`: the stripped text before the first `(`. */
  function TextBeforeParen(u: string): (r: string)
    ensures |r| <= |u|
    ensures NoLower(u) ==> NoLower(r)
    ensures forall i: nat :: FirstParenAt(u, i) ==> r == Strip(u[..i])
  {
    var before := match Find(u, "(") case None => u case Some(i) => u[..i];
    assert NoLower(u) ==> NoLower(before);
    assert forall i: nat :: FirstParenAt(u, i) ==> before == u[..i] by {
      forall i: nat | FirstParenAt(u, i) ensures before == u[..i] { FindParen(u, i); }
    }
    if NoLower(u) then StripKeepsNoLower(before); Strip(before) else Strip(before)
  }

  /** The three regex attempts of `_parse_data_type` on the stripped, upper-cased text. */
  function DecomposeType(u: string): (r: TypeInfo)
    ensures NoLower(u) ==> NoLower(r.baseType)
    ensures r.length.Some? ==> r.baseType in ["VARCHAR", "CHAR"] && r.precision.None? && r.scale.None?
    ensures r.precision.Some? <==> r.scale.Some?
    ensures r.precision.Some? ==> r.baseType in ["DECIMAL", "NUMERIC"] && r.length.None?
  {
    match MatchLength(u)
    case Some((kw, n)) => TypeInfo(kw, Some(n), None, None)
    case None =>
      match MatchPrecisionScale(u)
      case Some((kw, p, s)) => TypeInfo(kw, None, Some(p), Some(s))
      case None =>
        match MatchPrecision(u)
        case Some((kw, p)) => TypeInfo(kw, None, Some(p), Some(0))
        case None => TypeInfo(TextBeforeParen(u), None, None, None)
  }

  /** `_parse_data_type`: split a raw SQL type into base type, length, precision, scale. */
  function ParseDataType(raw: string): (r: TypeInfo)
    ensures raw == [] ==> r == TypeInfo("VARCHAR", None, None, None)
    ensures NoLower(r.baseType)
    ensures r.length.Some? ==> r.baseType in ["VARCHAR", "CHAR"] && r.precision.None? && r.scale.None?
    ensures r.precision.Some? <==> r.scale.Some?
    ensures r.precision.Some? ==> r.baseType in ["DECIMAL", "NUMERIC"] && r.length.None?
  {
    if raw == [] then TypeInfo("VARCHAR", None, None, None)
    else DecomposeType(Upper(Strip(raw)))
  }

  /** The type text `KW(n)` as a specification document writes it. */
  function SizedType(kw: string, n: nat): string {
    kw + "(" + NatToString(n) + ")"
  }

  /** The type text `KW(p,s)`. */
  function ScaledType(kw: string, p: nat, s: nat): string {
    kw + "(" + NatToString(p) + "," + NatToString(s) + ")"
  }

  /** Characters of a canonical type text: upper-case letters, digits and `(),`. */
  predicate TypeText(s: string) {
    forall i :: 0 <= i < |s| ==> IsUpperLetter(s[i]) || IsDigit(s[i]) || s[i] in "(),"
  }

  lemma TypeTextAppend(a: string, b: string)
    requires TypeText(a) && TypeText(b)
    ensures TypeText(a + b)
  {
    forall i | 0 <= i < |a + b| ensures IsUpperLetter((a + b)[i]) || IsDigit((a + b)[i]) || (a + b)[i] in "()," {
      if i >= |a| { assert (a + b)[i] == b[i - |a|]; }
    }
  }

  /** Canonical type text is left alone by `strip().upper()`. */
  lemma TypeTextIsNormal(t: string)
    requires TypeText(t)
    ensures Upper(Strip(t)) == t
  {
    if |t| > 0 {
      assert !IsSpace(t[0]) && !IsSpace(t[|t| - 1]);
      StripUnpadded(t);
    }
    assert Upper(t) == t;
  }

  lemma KeywordIsTypeText(kw: string)
    requires kw in ["VARCHAR", "CHAR", "DECIMAL", "NUMERIC"]
    ensures TypeText(kw)
  {
  }

  lemma SizedTypeIsNormal(kw: string, n: nat)
    requires kw in ["VARCHAR", "CHAR", "DECIMAL", "NUMERIC"]
    ensures Upper(Strip(SizedType(kw, n))) == SizedType(kw, n)
  {
    KeywordIsTypeText(kw);
    TypeTextAppend(kw, "(");
    TypeTextAppend(kw + "(", NatToString(n));
    TypeTextAppend(kw + "(" + NatToString(n), ")");
    TypeTextIsNormal(SizedType(kw, n));
  }

  lemma ScaledTypeIsNormal(kw: string, p: nat, s: nat)
    requires kw in ["VARCHAR", "CHAR", "DECIMAL", "NUMERIC"]
    ensures Upper(Strip(ScaledType(kw, p, s))) == ScaledType(kw, p, s)
  {
    KeywordIsTypeText(kw);
    var a := kw + "(";
    TypeTextAppend(kw, "(");
    var b := a + NatToString(p);
    TypeTextAppend(a, NatToString(p));
    TypeTextAppend(b, ",");
    TypeTextAppend(b + ",", NatToString(s));
    TypeTextAppend(b + "," + NatToString(s), ")");
    TypeTextIsNormal(ScaledType(kw, p, s));
  }

  /** A two-way alternative `(a|b)` tries `a` first. */
  lemma MatchEither(t: string, a: string, b: string)
    ensures MatchKeyword(t, [a, b]) ==
            if StartsWith(t, a) then Some(a) else if StartsWith(t, b) then Some(b) else None
  {
    assert [a, b][1..] == [b];
  }

  /** A text whose first character differs from a keyword's does not start with it. */
  lemma FirstCharRules(t: string, p: string)
    requires |t| > 0 && |p| > 0 && t[0] != p[0]
    ensures !StartsWith(t, p)
  {
    if |p| <= |t| {
      assert t[..|p|][0] == t[0];
    }
  }

  /** The four keywords start with four different letters, so one prefix test decides. */
  lemma KeywordAt(kw: string, t: string)
    requires kw in ["VARCHAR", "CHAR", "DECIMAL", "NUMERIC"]
    requires |kw| <= |t| && t[..|kw|] == kw
    ensures MatchKeyword(t, ["VARCHAR", "CHAR"]) == (if kw in ["VARCHAR", "CHAR"] then Some(kw) else None)
    ensures MatchKeyword(t, ["DECIMAL", "NUMERIC"]) == (if kw in ["DECIMAL", "NUMERIC"] then Some(kw) else None)
  {
    assert t[0] == kw[0] by { assert t[0] == t[..|kw|][0]; }
    MatchEither(t, "VARCHAR", "CHAR");
    MatchEither(t, "DECIMAL", "NUMERIC");
    assert StartsWith(t, kw);
    if kw != "VARCHAR" { FirstCharRules(t, "VARCHAR"); }
    if kw != "CHAR" { FirstCharRules(t, "CHAR"); }
    if kw != "DECIMAL" { FirstCharRules(t, "DECIMAL"); }
    if kw != "NUMERIC" { FirstCharRules(t, "NUMERIC"); }
  }

  /** Where the parts of `KW(d)` sit. */
  lemma SizedShape(kw: string, d: string, t: string)
    requires t == kw + "(" + d + ")"
    ensures |t| == |kw| + |d| + 2 && t[..|kw|] == kw
    ensures t[|kw|] == '(' && t[|kw| + 1..|kw| + 1 + |d|] == d && t[|kw| + 1 + |d|] == ')'
  {
  }

  /** Where the parts of `KW(dp,ds)` sit. */
  lemma ScaledShape(kw: string, dp: string, ds: string, t: string)
    requires t == kw + "(" + dp + "," + ds + ")"
    ensures |t| == |kw| + |dp| + |ds| + 3 && t[..|kw|] == kw
    ensures t[|kw|] == '(' && t[|kw| + 1..|kw| + 1 + |dp|] == dp && t[|kw| + 1 + |dp|] == ','
    ensures t[|kw| + 1 + |dp| + 1..|kw| + 1 + |dp| + 1 + |ds|] == ds && t[|kw| + 1 + |dp| + 1 + |ds|] == ')'
  {
  }

  lemma {:induction false} DigitsEndOver(s: string, i: nat, j: nat)
    requires i <= j < |s|
    requires AllDigits(s[i..j]) && !IsDigit(s[j])
    ensures DigitsEnd(s, i) == j
    decreases j - i
  {
    if i < j {
      assert IsDigit(s[i..j][0]);
      assert s[i + 1..j] == s[i..j][1..];
      DigitsEndOver(s, i + 1, j);
    }
  }

  /** Scanning the digit run `d`, followed by a non-digit, reads exactly `d`. */
  lemma NumberScan(s: string, i: nat, d: string)
    requires AllDigits(d) && i + |d| < |s|
    requires s[i..i + |d|] == d
    requires !IsDigit(s[i + |d|])
    ensures DigitsEnd(s, i) == i + |d|
    ensures s[i..DigitsEnd(s, i)] == d
  {
    DigitsEndOver(s, i, i + |d|);
  }

  /** `(` then the digit run `d` then a non-digit, at index `i`. */
  lemma OpenNumberOver(t: string, i: nat, d: string)
    requires |d| > 0 && AllDigits(d) && i + 1 + |d| < |t|
    requires t[i] == '(' && t[i + 1..i + 1 + |d|] == d && !IsDigit(t[i + 1 + |d|])
    ensures OpenNumber(t, i) == Some((d, i + 1 + |d|))
  {
    assert SkipSpaces(t, i) == i;
    NumberScan(t, i + 1, d);
  }

  /** The parts of `KW(d)` sit where the text puts them. */
  predicate SizedParts(kw: string, d: string, t: string) {
    && |d| > 0 && AllDigits(d)
    && |t| == |kw| + |d| + 2 && t[..|kw|] == kw
    && t[|kw|] == '(' && t[|kw| + 1..|kw| + 1 + |d|] == d && t[|kw| + 1 + |d|] == ')'
  }

  lemma SizedNumber(kw: string, d: string, t: string)
    requires SizedParts(kw, d, t)
    ensures OpenNumber(t, |kw|) == Some((d, |kw| + 1 + |d|))
  {
    OpenNumberOver(t, |kw|, d);
  }

  /** `KW(d)` for a length keyword, as a text whose parts are known. */
  lemma MatchLengthText(kw: string, d: string, t: string)
    requires kw == "VARCHAR" || kw == "CHAR"
    requires SizedParts(kw, d, t)
    ensures MatchLength(t) == Some((kw, DigitsValue(d)))
  {
    KeywordAt(kw, t);
    SizedNumber(kw, d, t);
  }

  lemma MatchLengthSized(kw: string, n: nat)
    requires kw == "VARCHAR" || kw == "CHAR"
    ensures MatchLength(SizedType(kw, n)) == Some((kw, n))
  {
    var d := NatToString(n);
    NatToStringRoundTrip(n);
    SizedShape(kw, d, SizedType(kw, n));
    MatchLengthText(kw, d, SizedType(kw, n));
  }

  /** Round trip: `VARCHAR(n)` and `CHAR(n)` decode to their keyword and length. */
  lemma ParseSizedType(kw: string, n: nat)
    requires kw == "VARCHAR" || kw == "CHAR"
    ensures ParseDataType(SizedType(kw, n)) == TypeInfo(kw, Some(n), None, None)
  {
    var t := SizedType(kw, n);
    SizedTypeIsNormal(kw, n);
    MatchLengthSized(kw, n);
    assert ParseDataType(t) == DecomposeType(t);
  }

  /** `KW(d)` for a precision keyword, as a text whose parts are known. */
  lemma MatchPrecisionText(kw: string, d: string, t: string)
    requires kw == "DECIMAL" || kw == "NUMERIC"
    requires SizedParts(kw, d, t)
    ensures MatchLength(t) == None
    ensures MatchPrecisionScale(t) == None
    ensures MatchPrecision(t) == Some((kw, DigitsValue(d)))
  {
    KeywordAt(kw, t);
    SizedNumber(kw, d, t);
    var k := |kw| + 1 + |d|;
    assert SkipSpaces(t, k) == k;
  }

  lemma MatchPrecisionSized(kw: string, p: nat)
    requires kw == "DECIMAL" || kw == "NUMERIC"
    ensures MatchLength(SizedType(kw, p)) == None
    ensures MatchPrecisionScale(SizedType(kw, p)) == None
    ensures MatchPrecision(SizedType(kw, p)) == Some((kw, p))
  {
    var d := NatToString(p);
    NatToStringRoundTrip(p);
    SizedShape(kw, d, SizedType(kw, p));
    MatchPrecisionText(kw, d, SizedType(kw, p));
  }

  /** Round trip: `DECIMAL(p)` and `NUMERIC(p)` decode with scale 0. */
  lemma ParsePrecisionOnly(kw: string, p: nat)
    requires kw == "DECIMAL" || kw == "NUMERIC"
    ensures ParseDataType(SizedType(kw, p)) == TypeInfo(kw, None, Some(p), Some(0))
  {
    var t := SizedType(kw, p);
    SizedTypeIsNormal(kw, p);
    MatchPrecisionSized(kw, p);
    assert ParseDataType(t) == DecomposeType(t);
  }

  /** `DECIMAL(p,s)` after the keyword and precision: the scale part, digits `d`. */
  lemma ScalePart(t: string, k: nat, d: string)
    requires |d| > 0 && AllDigits(d)
    requires k + 2 + |d| <= |t|
    requires t[k] == ','
    requires t[k + 1..k + 1 + |d|] == d
    requires t[k + 1 + |d|] == ')'
    ensures ScaleTail(t, k) == Some(d)
  {
    assert t[k + 1] == d[0];
    assert SkipSpaces(t, k) == k;
    assert SkipSpaces(t, k + 1) == k + 1;
    NumberScan(t, k + 1, d);
    assert t[k + 1..DigitsEnd(t, k + 1)] == d;
  }

  lemma PrecisionScaleAt(t: string, kw: string, dp: string, k: nat, ds: string)
    requires MatchKeyword(t, ["DECIMAL", "NUMERIC"]) == Some(kw)
    requires |kw| <= |t| && OpenNumber(t, |kw|) == Some((dp, k))
    requires k <= |t| && ScaleTail(t, k) == Some(ds)
    ensures AllDigits(dp) && AllDigits(ds)
    ensures MatchPrecisionScale(t) == Some((kw, DigitsValue(dp), DigitsValue(ds)))
  {
  }

  /** The parts of `KW(dp,ds)` sit where the text puts them. */
  predicate ScaledParts(kw: string, dp: string, ds: string, t: string) {
    && |dp| > 0 && AllDigits(dp) && |ds| > 0 && AllDigits(ds)
    && |t| == |kw| + |dp| + |ds| + 3 && t[..|kw|] == kw
    && t[|kw|] == '(' && t[|kw| + 1..|kw| + 1 + |dp|] == dp && t[|kw| + 1 + |dp|] == ','
    && t[|kw| + 1 + |dp| + 1..|kw| + 1 + |dp| + 1 + |ds|] == ds && t[|kw| + 1 + |dp| + 1 + |ds|] == ')'
  }

  lemma ScaledPrecision(kw: string, dp: string, ds: string, t: string)
    requires ScaledParts(kw, dp, ds, t)
    ensures OpenNumber(t, |kw|) == Some((dp, |kw| + 1 + |dp|))
  {
    OpenNumberOver(t, |kw|, dp);
  }

  lemma ScaledScale(kw: string, dp: string, ds: string, t: string)
    requires ScaledParts(kw, dp, ds, t)
    ensures ScaleTail(t, |kw| + 1 + |dp|) == Some(ds)
  {
    ScalePart(t, |kw| + 1 + |dp|, ds);
  }

  /** `KW(dp,ds)` for a precision keyword, as a text whose parts are known. */
  lemma MatchScaledText(kw: string, dp: string, ds: string, t: string)
    requires kw == "DECIMAL" || kw == "NUMERIC"
    requires ScaledParts(kw, dp, ds, t)
    ensures MatchLength(t) == None
    ensures MatchPrecisionScale(t) == Some((kw, DigitsValue(dp), DigitsValue(ds)))
  {
    KeywordAt(kw, t);
    ScaledPrecision(kw, dp, ds, t);
    ScaledScale(kw, dp, ds, t);
    PrecisionScaleAt(t, kw, dp, |kw| + 1 + |dp|, ds);
  }

  lemma MatchScaled(kw: string, p: nat, s: nat)
    requires kw == "DECIMAL" || kw == "NUMERIC"
    ensures MatchLength(ScaledType(kw, p, s)) == None
    ensures MatchPrecisionScale(ScaledType(kw, p, s)) == Some((kw, p, s))
  {
    var dp, ds := NatToString(p), NatToString(s);
    NatToStringRoundTrip(p);
    NatToStringRoundTrip(s);
    ScaledShape(kw, dp, ds, ScaledType(kw, p, s));
    MatchScaledText(kw, dp, ds, ScaledType(kw, p, s));
  }

  /** Round trip: `DECIMAL(p,s)` and `NUMERIC(p,s)` decode to precision and scale. */
  lemma ParseScaledType(kw: string, p: nat, s: nat)
    requires kw == "DECIMAL" || kw == "NUMERIC"
    ensures ParseDataType(ScaledType(kw, p, s)) == TypeInfo(kw, None, Some(p), Some(s))
  {
    var t := ScaledType(kw, p, s);
    ScaledTypeIsNormal(kw, p, s);
    MatchScaled(kw, p, s);
    assert ParseDataType(t) == DecomposeType(t);
  }

  lemma NoOpenNumber(u: string, i: nat)
    requires i <= |u|
    requires forall j :: 0 <= j < |u| ==> u[j] != '('
    ensures OpenNumber(u, i) == None
  {
  }

  /** With no `(` in the text, none of the three regexes can match. */
  lemma DecomposeWithoutParen(u: string)
    requires forall j :: 0 <= j < |u| ==> u[j] != '('
    ensures DecomposeType(u) == TypeInfo(Strip(u), None, None, None)
  {
    assert MatchLength(u) == None by {
      var kw := MatchKeyword(u, ["VARCHAR", "CHAR"]);
      if kw.Some? { NoOpenNumber(u, |kw.value|); }
    }
    assert MatchPrecisionScale(u) == None && MatchPrecision(u) == None by {
      var kw := MatchKeyword(u, ["DECIMAL", "NUMERIC"]);
      if kw.Some? { NoOpenNumber(u, |kw.value|); }
    }
    forall j ensures !OccursAt(u, "(", j) {
      if 0 <= j && j + 1 <= |u| { assert u[j..j + 1][0] == u[j]; }
    }
    assert Find(u, "(") == None;
  }

  lemma NormalisedHasNoParen(raw: string)
    requires forall i :: 0 <= i < |raw| ==> raw[i] != '('
    ensures forall j :: 0 <= j < |Upper(Strip(raw))| ==> Upper(Strip(raw))[j] != '('
  {
    var k := StripOffset(raw);
    forall j | 0 <= j < |Strip(raw)| ensures Strip(raw)[j] != '(' {
      assert Strip(raw)[j] == raw[k + j];
    }
  }

  /** A type text without any `(` is kept whole, stripped and upper-cased. */
  lemma ParseUnsizedType(raw: string)
    requires raw != []
    requires forall i :: 0 <= i < |raw| ==> raw[i] != '('
    ensures ParseDataType(raw) == TypeInfo(Upper(Strip(raw)), None, None, None)
  {
    NormalisedHasNoParen(raw);
    DecomposeWithoutParen(Upper(Strip(raw)));
    UpperStrip(Strip(raw));
    StripIdempotent(raw);
  }

  /**
   * When none of the three regexes matches, the base type is the stripped,
   * upper-cased text before the first `(`, with no numbers.
   */
  lemma ParseFallbackType(raw: string, i: nat)
    requires raw != []
    requires MatchLength(Upper(Strip(raw))).None?
    requires MatchPrecisionScale(Upper(Strip(raw))).None? && MatchPrecision(Upper(Strip(raw))).None?
    requires FirstParenAt(Upper(Strip(raw)), i)
    ensures ParseDataType(raw) == TypeInfo(Strip(Upper(Strip(raw))[..i]), None, None, None)
  {
  }

  /** A type that starts with none of VARCHAR, CHAR, DECIMAL, NUMERIC (`INT(11)`, say) takes the fallback. */
  lemma ParseOtherType(raw: string, i: nat)
    requires raw != []
    requires !StartsWith(Upper(Strip(raw)), "VARCHAR") && !StartsWith(Upper(Strip(raw)), "CHAR")
    requires !StartsWith(Upper(Strip(raw)), "DECIMAL") && !StartsWith(Upper(Strip(raw)), "NUMERIC")
    requires FirstParenAt(Upper(Strip(raw)), i)
    ensures ParseDataType(raw) == TypeInfo(Strip(Upper(Strip(raw))[..i]), None, None, None)
  {
    NoSizedKeyword(Upper(Strip(raw)));
    ParseFallbackType(raw, i);
  }

  lemma NoSizedKeyword(u: string)
    requires !StartsWith(u, "VARCHAR") && !StartsWith(u, "CHAR")
    requires !StartsWith(u, "DECIMAL") && !StartsWith(u, "NUMERIC")
    ensures MatchLength(u).None? && MatchPrecisionScale(u).None? && MatchPrecision(u).None?
  {
  }

  /** Upper-casing leaves whitespace where it was, so it commutes with `strip()`. */
  lemma UpperStrip(s: string)
    ensures Strip(Upper(s)) == Upper(Strip(s))
  {
    UpperStripRight(s);
    UpperStripLeft(StripRight(s));
  }

  lemma {:induction false} UpperStripRight(s: string)
    ensures StripRight(Upper(s)) == Upper(StripRight(s))
    decreases |s|
  {
    if |s| > 0 {
      assert Upper(s)[|s| - 1] == UpperChar(s[|s| - 1]);
      SpaceOfUpper(s[|s| - 1]);
      if IsSpace(s[|s| - 1]) {
        assert Upper(s)[..|s| - 1] == Upper(s[..|s| - 1]);
        UpperStripRight(s[..|s| - 1]);
      }
    }
  }

  lemma {:induction false} UpperStripLeft(s: string)
    ensures StripLeft(Upper(s)) == Upper(StripLeft(s))
    decreases |s|
  {
    if |s| > 0 {
      SpaceOfUpper(s[0]);
      if IsSpace(s[0]) {
        assert Upper(s)[1..] == Upper(s[1..]);
        UpperStripLeft(s[1..]);
      }
    }
  }

  /** The decomposition does not depend on the letter case of the input. */
  lemma ParseDataTypeIgnoresCase(raw: string)
    ensures ParseDataType(Lower(raw)) == ParseDataType(raw)
  {
    StripLower(raw);
    UpperOfLower(Strip(raw));
  }

  // ---------------------------------------------------------------------
  // _parse_nullable
  // ---------------------------------------------------------------------

  /** The spellings `_parse_nullable` reads as "nullable". */
  const NullableSpellings: seq<string> := ["Y", "YES", "TRUE", "1", "NULL", "NULLABLE"]

  /** `_parse_nullable` */
  function ParseNullable(raw: string): bool {
    Upper(Strip(raw)) in NullableSpellings
  }

  /** The nullable flag does not depend on letter case. */
  lemma NullableIgnoresCase(raw: string)
    ensures ParseNullable(Lower(raw)) == ParseNullable(raw)
  {
    StripLower(raw);
    UpperOfLower(Strip(raw));
  }

  /** The nullable flag does not depend on surrounding whitespace. */
  lemma NullableIgnoresPadding(raw: string)
    ensures ParseNullable(Strip(raw)) == ParseNullable(raw)
  {
    StripIdempotent(raw);
  }

  /** Upper- and lower-case spellings of each accepted word. */
  lemma SpellingCases()
    ensures Lower("Y") == "y" && Upper("y") == "Y"
    ensures Lower("YES") == "yes" && Upper("yes") == "YES"
    ensures Lower("TRUE") == "true" && Upper("true") == "TRUE"
    ensures Lower("1") == "1" && Upper("1") == "1"
    ensures Lower("NULL") == "null" && Upper("null") == "NULL"
    ensures Lower("NULLABLE") == "nullable" && Upper("nullable") == "NULLABLE"
  {
  }

  /** `Upper(s)` is a given upper-case word exactly when `Lower(s)` is its lower-case form. */
  lemma CaseFold(s: string, up: string, low: string)
    requires Lower(up) == low && Upper(low) == up
    ensures Upper(s) == up <==> Lower(s) == low
  {
    UpperOfLower(s);
    LowerOfUpper(s);
  }

  lemma SpellingsCaseFold(s: string)
    ensures (Upper(s) == "Y" || Upper(s) == "YES" || Upper(s) == "TRUE" || Upper(s) == "1" || Upper(s) == "NULL" || Upper(s) == "NULLABLE")
      <==> (Lower(s) == "y" || Lower(s) == "yes" || Lower(s) == "true" || Lower(s) == "1" || Lower(s) == "null" || Lower(s) == "nullable")
  {
    SpellingCases();
    CaseFold(s, "Y", "y");
    CaseFold(s, "YES", "yes");
    CaseFold(s, "TRUE", "true");
    CaseFold(s, "1", "1");
    CaseFold(s, "NULL", "null");
    CaseFold(s, "NULLABLE", "nullable");
  }

  lemma UpperSpellingsMembership(u: string)
    ensures (u in NullableSpellings)
      == (u == "Y" || u == "YES" || u == "TRUE" || u == "1" || u == "NULL" || u == "NULLABLE")
  {
  }

  lemma LowerSpellingsMembership(l: string)
    ensures (l in ["y", "yes", "true", "1", "null", "nullable"])
      == (l == "y" || l == "yes" || l == "true" || l == "1" || l == "null" || l == "nullable")
  {
  }

  /** The accepted spellings, in any letter case and with any padding. */
  lemma NullableSpellingsExactly(raw: string)
    ensures ParseNullable(raw) <==> Lower(Strip(raw)) in ["y", "yes", "true", "1", "null", "nullable"]
  {
    var s := Strip(raw);
    var u, l := Upper(s), Lower(s);
    var upperHit := u == "Y" || u == "YES" || u == "TRUE" || u == "1" || u == "NULL" || u == "NULLABLE";
    var lowerHit := l == "y" || l == "yes" || l == "true" || l == "1" || l == "null" || l == "nullable";
    UpperSpellingsMembership(u);
    LowerSpellingsMembership(l);
    assert upperHit == lowerHit by { SpellingsCaseFold(s); }
  }

  /** An empty or blank cell is "not nullable". */
  lemma NullableBlankIsFalse(raw: string)
    requires forall i :: 0 <= i < |raw| ==> IsSpace(raw[i])
    ensures !ParseNullable(raw)
  {
    StripEmptyIffBlank(raw);
  }

  // ---------------------------------------------------------------------
  // _classify_field_by_name
  // ---------------------------------------------------------------------

  /** The three anchored regex shapes the pattern lists use. */
  datatype Anchor = Prefix(text: string) | Suffix(text: string) | Exact(text: string)

  /**
   * `re.search` of `^text`, `text$` or `^text$`; `$` also matches just
   * before a final newline.
   */
  predicate AnchorMatches(s: string, a: Anchor) {
    match a
    case Prefix(t) => StartsWith(s, t)
    case Suffix(t) => EndsWith(s, t) || EndsWith(s, t + "\n")
    case Exact(t) => s == t || s == t + "\n"
  }

  const HeaderPatterns: seq<Anchor> := [
    Prefix("header_"), Suffix("_header"), Exact("file_id"), Exact("header_id"),
    Exact("subheader_id"), Exact("detail_id"), Exact("batch_id"), Exact("extract_id"),
    Exact("record_id"), Exact("file_name"), Exact("file_date"), Exact("file_version"),
    Exact("file_type"), Exact("creation_date"), Exact("creation_time"), Prefix("sender_"),
    Prefix("receiver_")
  ]

  const TrailerPatterns: seq<Anchor> := [
    Prefix("trailer_"), Suffix("_trailer"), Suffix("_count"), Prefix("total_"),
    Suffix("_total"), Suffix("_sum"), Suffix("_summary"), Prefix("footer_"),
    Suffix("_footer"), Exact("record_count"), Exact("file_record_count"),
    Exact("total_amount"), Exact("total_records")
  ]

  predicate AnyMatches(s: string, patterns: seq<Anchor>) {
    exists i :: 0 <= i < |patterns| && AnchorMatches(s, patterns[i])
  }

  /** The first pattern in list order that matches, as the `for ... return` loop finds it. */
  function FirstMatch(s: string, patterns: seq<Anchor>): (r: Option<nat>)
    ensures r.Some? <==> AnyMatches(s, patterns)
    ensures r.Some? ==> r.value < |patterns| && AnchorMatches(s, patterns[r.value])
    ensures r.Some? ==> forall j :: 0 <= j < r.value ==> !AnchorMatches(s, patterns[j])
  {
    if |patterns| == 0 then None
    else if AnchorMatches(s, patterns[0]) then Some(0)
    else
      match FirstMatch(s, patterns[1..])
      case None =>
        assert forall i :: 1 <= i < |patterns| ==> patterns[i] == patterns[1..][i - 1];
        None
      case Some(k) =>
        assert forall i :: 1 <= i < |patterns| ==> patterns[i] == patterns[1..][i - 1];
        Some(k + 1)
  }

  /** Matching a concatenation of pattern lists is matching one of them. */
  lemma AnyMatchesAppend(s: string, a: seq<Anchor>, b: seq<Anchor>)
    ensures AnyMatches(s, a + b) <==> AnyMatches(s, a) || AnyMatches(s, b)
  {
    if AnyMatches(s, a + b) {
      var i :| 0 <= i < |a + b| && AnchorMatches(s, (a + b)[i]);
      if i >= |a| {
        assert (a + b)[i] == b[i - |a|];
      }
    }
    if AnyMatches(s, b) {
      var j :| 0 <= j < |b| && AnchorMatches(s, b[j]);
      assert (a + b)[|a| + j] == b[j];
    }
    if AnyMatches(s, a) {
      var j :| 0 <= j < |a| && AnchorMatches(s, a[j]);
      assert (a + b)[j] == a[j];
    }
  }

  /** The description words that make an unmatched name a header field. */
  predicate DescribesHeader(desc: string) {
    Contains(desc, "header") || Contains(desc, "file-level")
  }

  /** The description words that make an unmatched name a trailer field. */
  predicate DescribesTrailer(desc: string) {
    Contains(desc, "trailer") || Contains(desc, "total") || Contains(desc, "count")
  }

  /** `_classify_field_by_name`: name patterns first, then description keywords, else body. */
  function ClassifyFieldByName(columnName: string, description: string): (r: Flags)
    ensures ExactlyOne(r)
    ensures AnyMatches(Lower(columnName), HeaderPatterns) ==> r == FlagsOf(Header)
    ensures (!AnyMatches(Lower(columnName), HeaderPatterns) && AnyMatches(Lower(columnName), TrailerPatterns))
              ==> r == FlagsOf(Trailer)
    ensures (!AnyMatches(Lower(columnName), HeaderPatterns + TrailerPatterns) && DescribesHeader(Lower(description)))
              ==> r == FlagsOf(Header)
    ensures (!AnyMatches(Lower(columnName), HeaderPatterns + TrailerPatterns) && !DescribesHeader(Lower(description))
             && DescribesTrailer(Lower(description)))
              ==> r == FlagsOf(Trailer)
    ensures (!AnyMatches(Lower(columnName), HeaderPatterns + TrailerPatterns) && !DescribesHeader(Lower(description))
             && !DescribesTrailer(Lower(description)))
              ==> r == FlagsOf(Body)
    ensures r.isBody ==> !AnyMatches(Lower(columnName), HeaderPatterns + TrailerPatterns)
    ensures r.isBody ==> !Contains(Lower(description), "header") && !Contains(Lower(description), "total")
  {
    var name := Lower(columnName);
    var desc := if description != [] then Lower(description) else [];
    AnyMatchesAppend(name, HeaderPatterns, TrailerPatterns);
    if FirstMatch(name, HeaderPatterns).Some? then FlagsOf(Header)
    else if FirstMatch(name, TrailerPatterns).Some? then FlagsOf(Trailer)
    else if DescribesHeader(desc) then FlagsOf(Header)
    else if DescribesTrailer(desc) then FlagsOf(Trailer)
    else FlagsOf(Body)
  }

  /** Once a name pattern decides, the description plays no part. */
  lemma NamePatternOutranksDescription(columnName: string, d1: string, d2: string)
    requires AnyMatches(Lower(columnName), HeaderPatterns + TrailerPatterns)
    ensures ClassifyFieldByName(columnName, d1) == ClassifyFieldByName(columnName, d2)
  {
    var name := Lower(columnName);
    var i :| 0 <= i < |HeaderPatterns + TrailerPatterns| && AnchorMatches(name, (HeaderPatterns + TrailerPatterns)[i]);
    if i >= |HeaderPatterns| {
      assert AnchorMatches(name, TrailerPatterns[i - |HeaderPatterns|]);
    } else {
      assert AnchorMatches(name, HeaderPatterns[i]);
    }
  }

  /** A name ending in `_count` is a trailer field unless a header pattern claims it first. */
  lemma CountSuffixIsTrailer(columnName: string, description: string)
    requires EndsWith(Lower(columnName), "_count")
    requires !AnyMatches(Lower(columnName), HeaderPatterns)
    ensures ClassifyFieldByName(columnName, description) == FlagsOf(Trailer)
  {
    assert AnchorMatches(Lower(columnName), TrailerPatterns[2]);
  }

  /** Names match the pattern lists case-insensitively. */
  lemma ClassifyIgnoresNameCase(columnName: string, description: string)
    ensures ClassifyFieldByName(Upper(columnName), description) == ClassifyFieldByName(columnName, description)
  {
    LowerOfUpper(columnName);
  }
}
