/**
 * The string primitives the source uses (`lower`, `upper`, `strip`, `in`,
 * `startswith`, `endswith`, `split`, `join`, `int`), written out over
 * `seq<char>`. Case mapping and `\d`/`\w` classes cover ASCII only; the
 * whitespace set is exactly the one of Python's `str.isspace`.
 */
module Strings {
  import opened Wrappers

  /** Whitespace as `str.strip()` and the regex class `\s` see it. */
  predicate IsSpace(c: char) {
    c == ' ' || ('\t' <= c <= '\r') || ('\U{1C}' <= c <= '\U{1F}')
    || c == '\U{85}' || c == '\U{A0}' || c == '\U{1680}'
    || ('\U{2000}' <= c <= '\U{200A}') || c == '\U{2028}' || c == '\U{2029}'
    || c == '\U{202F}' || c == '\U{205F}' || c == '\U{3000}'
  }

  predicate IsDigit(c: char) { '0' <= c <= '9' }
  predicate IsUpperLetter(c: char) { 'A' <= c <= 'Z' }
  predicate IsLowerLetter(c: char) { 'a' <= c <= 'z' }
  predicate IsLetter(c: char) { IsUpperLetter(c) || IsLowerLetter(c) }
  /** The regex class `\w` (ASCII part). */
  predicate IsWordChar(c: char) { IsLetter(c) || IsDigit(c) || c == '_' }

  predicate AllDigits(s: string) { forall i :: 0 <= i < |s| ==> IsDigit(s[i]) }
  predicate AllWordChars(s: string) { forall i :: 0 <= i < |s| ==> IsWordChar(s[i]) }
  predicate NoSpace(s: string) { forall i :: 0 <= i < |s| ==> !IsSpace(s[i]) }
  predicate NoUpper(s: string) { forall i :: 0 <= i < |s| ==> !IsUpperLetter(s[i]) }

  function LowerChar(c: char): char {
    if IsUpperLetter(c) then (c as int + 32) as char else c
  }

  function UpperChar(c: char): char {
    if IsLowerLetter(c) then (c as int - 32) as char else c
  }

  /** Length of the run of whitespace starting at `i`. */
  function SpaceRun(s: string, i: nat): (n: nat)
    requires i <= |s|
    ensures i + n <= |s|
    ensures forall x :: i <= x < i + n ==> IsSpace(s[x])
    ensures i + n < |s| ==> !IsSpace(s[i + n])
    decreases |s| - i
  {
    if i < |s| && IsSpace(s[i]) then 1 + SpaceRun(s, i + 1) else 0
  }

  /** Length of the run of non-whitespace characters starting at `i`. */
  function NonSpaceRun(s: string, i: nat): (n: nat)
    requires i <= |s|
    ensures i + n <= |s|
    ensures forall x :: i <= x < i + n ==> !IsSpace(s[x])
    ensures i + n < |s| ==> IsSpace(s[i + n])
    decreases |s| - i
  {
    if i < |s| && !IsSpace(s[i]) then 1 + NonSpaceRun(s, i + 1) else 0
  }

  /** The non-whitespace run is exactly the stretch of non-whitespace that whitespace or the end closes. */
  lemma {:induction false} NonSpaceRunExact(s: string, i: nat, m: nat)
    requires i + m <= |s|
    requires forall x :: i <= x < i + m ==> !IsSpace(s[x])
    requires i + m == |s| || IsSpace(s[i + m])
    ensures NonSpaceRun(s, i) == m
    decreases m
  {
    if m > 0 {
      NonSpaceRunExact(s, i + 1, m - 1);
    }
  }

  /** `str.lower()` */
  function Lower(s: string): (r: string)
    ensures |r| == |s|
    ensures forall i :: 0 <= i < |s| ==> r[i] == LowerChar(s[i])
  {
    seq(|s|, i requires 0 <= i < |s| => LowerChar(s[i]))
  }

  /** `str.upper()` */
  function Upper(s: string): (r: string)
    ensures |r| == |s|
    ensures forall i :: 0 <= i < |s| ==> r[i] == UpperChar(s[i])
  {
    seq(|s|, i requires 0 <= i < |s| => UpperChar(s[i]))
  }

  lemma LowerHasNoUpper(s: string)
    ensures NoUpper(Lower(s))
  {
  }

  /** Upper-casing forgets any earlier case mapping. */
  lemma UpperOfLower(s: string)
    ensures Upper(Lower(s)) == Upper(s)
  {
    assert forall i :: 0 <= i < |s| ==> UpperChar(LowerChar(s[i])) == UpperChar(s[i]);
  }

  /** Lower-casing forgets any earlier case mapping. */
  lemma LowerOfUpper(s: string)
    ensures Lower(Upper(s)) == Lower(s)
  {
    assert forall i :: 0 <= i < |s| ==> LowerChar(UpperChar(s[i])) == LowerChar(s[i]);
  }

  lemma LowerAppend(a: string, b: string)
    ensures Lower(a + b) == Lower(a) + Lower(b)
  {
  }

  lemma UpperAppend(a: string, b: string)
    ensures Upper(a + b) == Upper(a) + Upper(b)
  {
  }

  /** Leading whitespace removed (`str.lstrip()`). */
  function StripLeft(s: string): (r: string)
    ensures |r| <= |s| && r == s[|s| - |r|..]
    ensures |r| > 0 ==> !IsSpace(r[0])
    ensures forall i :: 0 <= i < |s| - |r| ==> IsSpace(s[i])
    decreases |s|
  {
    if |s| > 0 && IsSpace(s[0]) then StripLeft(s[1..]) else s
  }

  /** Trailing whitespace removed (`str.rstrip()`). */
  function StripRight(s: string): (r: string)
    ensures |r| <= |s| && r == s[..|r|]
    ensures |r| > 0 ==> !IsSpace(r[|r| - 1])
    ensures forall i :: |r| <= i < |s| ==> IsSpace(s[i])
    decreases |s|
  {
    if |s| > 0 && IsSpace(s[|s| - 1]) then StripRight(s[..|s| - 1]) else s
  }

  /** `str.strip()` */
  function Strip(s: string): (r: string)
    ensures |r| <= |s|
    ensures |r| > 0 ==> !IsSpace(r[0]) && !IsSpace(r[|r| - 1])
  {
    StripLeft(StripRight(s))
  }

  /** Text that neither starts nor ends with whitespace is left as it is by stripping. */
  lemma StripUnpadded(s: string)
    requires |s| > 0 && !IsSpace(s[0]) && !IsSpace(s[|s| - 1])
    ensures Strip(s) == s
  {
    assert StripRight(s) == s;
    assert StripLeft(s) == s;
  }

  /** A string is blank exactly when stripping it leaves nothing. */
  lemma StripEmptyIffBlank(s: string)
    ensures Strip(s) == [] <==> forall i :: 0 <= i < |s| ==> IsSpace(s[i])
  {
    var r := StripRight(s);
    var q := StripLeft(r);
    if q != [] {
      assert q[0] == s[|r| - |q|];
    }
  }

  /** Case mapping leaves whitespace where it was, so it commutes with `strip()`. */
  lemma {:induction false} StripLower(s: string)
    ensures Strip(Lower(s)) == Lower(Strip(s))
  {
    StripRightLower(s);
    StripLeftLower(StripRight(s));
  }

  lemma {:induction false} StripRightLower(s: string)
    ensures StripRight(Lower(s)) == Lower(StripRight(s))
    decreases |s|
  {
    if |s| > 0 {
      assert Lower(s)[|s| - 1] == LowerChar(s[|s| - 1]);
      SpaceOfLower(s[|s| - 1]);
      if IsSpace(s[|s| - 1]) {
        assert Lower(s)[..|s| - 1] == Lower(s[..|s| - 1]);
        StripRightLower(s[..|s| - 1]);
      }
    }
  }

  lemma {:induction false} StripLeftLower(s: string)
    ensures StripLeft(Lower(s)) == Lower(StripLeft(s))
    decreases |s|
  {
    if |s| > 0 {
      SpaceOfLower(s[0]);
      if IsSpace(s[0]) {
        assert Lower(s)[1..] == Lower(s[1..]);
        StripLeftLower(s[1..]);
      }
    }
  }

  /** Case mapping keeps whitespace and non-whitespace apart. */
  lemma SpaceOfLower(c: char)
    ensures IsSpace(LowerChar(c)) <==> IsSpace(c)
  {
  }

  lemma SpaceOfUpper(c: char)
    ensures IsSpace(UpperChar(c)) <==> IsSpace(c)
  {
  }

  /** Where the text `strip()` keeps starts in its input. */
  function StripOffset(s: string): (k: nat)
    ensures k + |Strip(s)| <= |s|
    ensures s[k..k + |Strip(s)|] == Strip(s)
  {
    var r := StripRight(s);
    assert s[|r| - |Strip(s)|..|r|] == r[|r| - |Strip(s)|..];
    |r| - |Strip(s)|
  }

  /** Stripping twice is stripping once. */
  lemma StripIdempotent(s: string)
    ensures Strip(Strip(s)) == Strip(s)
  {
    var r := Strip(s);
    if |r| > 0 {
      assert StripRight(r) == r;
      assert StripLeft(r) == r;
    }
  }

  /** `t` occurs in `s` starting at index `i`. */
  predicate OccursAt(s: string, t: string, i: int) {
    0 <= i && i + |t| <= |s| && s[i..i + |t|] == t
  }

  /** Substring test `t in s`. */
  predicate Contains(s: string, t: string)
    decreases |s|
  {
    |t| <= |s| && (s[..|t|] == t || (|s| > 0 && Contains(s[1..], t)))
  }

  lemma OccursAtShift(s: string, t: string, i: int)
    requires |s| > 0 && i >= 1
    ensures OccursAt(s, t, i) <==> OccursAt(s[1..], t, i - 1)
  {
    if i + |t| <= |s| {
      assert s[1..][i - 1..i - 1 + |t|] == s[i..i + |t|];
    }
  }

  /** `t in s` holds exactly when `t` occurs at some index of `s`. */
  lemma {:induction false} ContainsAt(s: string, t: string)
    ensures Contains(s, t) <==> exists i :: OccursAt(s, t, i)
    decreases |s|
  {
    if |t| <= |s| && s[..|t|] == t {
      assert OccursAt(s, t, 0);
    } else if |t| <= |s| && |s| > 0 {
      ContainsAt(s[1..], t);
      if Contains(s[1..], t) {
        var i :| OccursAt(s[1..], t, i);
        OccursAtShift(s, t, i + 1);
      } else {
        forall i | OccursAt(s, t, i) ensures false {
          if i > 0 { OccursAtShift(s, t, i); }
        }
      }
    } else {
      forall i | OccursAt(s, t, i) ensures false { }
    }
  }

  /** A witness index makes `t in s` true. */
  lemma ContainsWitness(s: string, t: string, i: int)
    requires OccursAt(s, t, i)
    ensures Contains(s, t)
  {
    ContainsAt(s, t);
  }

  /** Text occurring inside a part occurs inside any concatenation around it. */
  lemma ContainsInMiddle(a: string, b: string, c: string, t: string)
    requires Contains(b, t)
    ensures Contains(a + b + c, t)
  {
    ContainsAt(b, t);
    var i :| OccursAt(b, t, i);
    assert (a + b + c)[|a| + i..|a| + i + |t|] == t;
    ContainsWitness(a + b + c, t, |a| + i);
  }

  /** Substring containment is transitive. */
  lemma ContainsTransitive(a: string, b: string, c: string)
    requires Contains(a, b) && Contains(b, c)
    ensures Contains(a, c)
  {
    ContainsAt(a, b);
    var i :| OccursAt(a, b, i);
    ContainsInMiddle(a[..i], b, a[i + |b|..], c);
    assert a[..i] + b + a[i + |b|..] == a;
  }

  /** A prefix of text occurring in `s` occurs in `s` too. */
  lemma ContainsPrefixOf(s: string, t: string, n: nat)
    requires Contains(s, t) && n <= |t|
    ensures Contains(s, t[..n])
  {
    ContainsAt(s, t);
    var i :| OccursAt(s, t, i);
    assert s[i..i + n] == t[..n];
    ContainsWitness(s, t[..n], i);
  }

  /** `s.startswith(p)` */
  predicate StartsWith(s: string, p: string) { |p| <= |s| && s[..|p|] == p }

  /** `s.endswith(p)` */
  predicate EndsWith(s: string, p: string) { |p| <= |s| && s[|s| - |p|..] == p }

  /** Index of the leftmost occurrence of `t` in `s` (`str.find`). */
  function Find(s: string, t: string): (r: Option<nat>)
    ensures r.Some? ==> OccursAt(s, t, r.value)
    ensures r.Some? ==> forall j :: 0 <= j < r.value ==> !OccursAt(s, t, j)
    ensures r.None? ==> forall j :: !OccursAt(s, t, j)
    decreases |s|
  {
    if |t| > |s| then None
    else if s[..|t|] == t then Some(0)
    else
      match Find(s[1..], t)
      case None =>
        assert forall j :: 1 <= j ==> (OccursAt(s, t, j) <==> OccursAt(s[1..], t, j - 1)) by {
          forall j | 1 <= j { OccursAtShift(s, t, j); }
        }
        None
      case Some(k) =>
        assert forall j :: 1 <= j ==> (OccursAt(s, t, j) <==> OccursAt(s[1..], t, j - 1)) by {
          forall j | 1 <= j { OccursAtShift(s, t, j); }
        }
        Some(k + 1)
  }

  /** `s.split(sep)` for a non-empty separator. */
  function Split(s: string, sep: string): (parts: seq<string>)
    requires |sep| > 0
    ensures |parts| >= 1
    decreases |s|
  {
    match Find(s, sep)
    case None => [s]
    case Some(i) => [s[..i]] + Split(s[i + |sep|..], sep)
  }

  /** Splitting text that has an occurrence of the separator gives at least two parts. */
  lemma SplitOfContaining(s: string, sep: string)
    requires |sep| > 0 && Contains(s, sep)
    ensures |Split(s, sep)| >= 2
  {
    ContainsAt(s, sep);
  }

  /** Occurrences in a suffix are occurrences in the whole text, shifted. */
  lemma OccursInSuffix(s: string, t: string, d: nat, i: nat)
    requires d <= |s|
    ensures OccursAt(s[d..], t, i) <==> OccursAt(s, t, d + i)
  {
    if 0 <= i && d + i + |t| <= |s| {
      assert s[d..][i..i + |t|] == s[d + i..d + i + |t|];
    }
  }

  /** Splitting at the only occurrence of the separator gives the text before and after it. */
  lemma SplitOfUnique(s: string, sep: string, p: nat)
    requires |sep| > 0 && OccursAt(s, sep, p)
    requires forall i :: OccursAt(s, sep, i) ==> i == p
    ensures Split(s, sep) == [s[..p], s[p + |sep|..]]
  {
    assert Find(s, sep) == Some(p);
    var rest := s[p + |sep|..];
    if Find(rest, sep).Some? {
      OccursInSuffix(s, sep, p + |sep|, Find(rest, sep).value);
      assert false;
    }
    assert Split(rest, sep) == [rest];
  }

  /** Exactly two parts: the text is the first part, the separator, then the second part. */
  lemma SplitInTwo(s: string, sep: string)
    requires |sep| > 0 && |Split(s, sep)| == 2
    ensures s == Split(s, sep)[0] + sep + Split(s, sep)[1]
  {
    match Find(s, sep)
    case None =>
    case Some(i) =>
      var rest := s[i + |sep|..];
      assert Split(s, sep) == [s[..i]] + Split(rest, sep);
      assert Split(rest, sep) == [rest] by {
        assert Find(rest, sep).None?;
      }
      assert s == s[..i] + s[i..i + |sep|] + rest;
  }

  /** An occurrence at `i` means `find` succeeds, at `i` or before. */
  lemma FindAtOrBefore(s: string, t: string, i: nat)
    requires OccursAt(s, t, i)
    ensures Find(s, t).Some? && Find(s, t).value <= i
  {
  }

  /** Splitting cuts at the first occurrence: one part, then the parts of what follows it. */
  lemma SplitAtFind(s: string, sep: string, q: nat)
    requires |sep| > 0 && Find(s, sep) == Some(q)
    ensures q + |sep| <= |s|
    ensures |Split(s, sep)| == 1 + |Split(s[q + |sep|..], sep)|
  {
  }

  /** Two non-overlapping occurrences of the separator give at least three parts. */
  lemma SplitTwoOccurrences(s: string, sep: string, i: nat, j: nat)
    requires |sep| > 0 && OccursAt(s, sep, i) && OccursAt(s, sep, j) && i + |sep| <= j
    ensures |Split(s, sep)| >= 3
  {
    FindAtOrBefore(s, sep, i);
    var q := Find(s, sep).value;
    SplitAtFind(s, sep, q);
    LaterOccurrence(s, sep, q + |sep|, j);
    SplitOfContaining(s[q + |sep|..], sep);
  }

  /** An occurrence at or after `d` is inside the suffix from `d`. */
  lemma LaterOccurrence(s: string, t: string, d: nat, j: nat)
    requires d <= j && OccursAt(s, t, j)
    ensures Contains(s[d..], t)
  {
    OccursInSuffix(s, t, d, j - d);
    ContainsWitness(s[d..], t, j - d);
  }

  /** `sep.join(parts)` */
  function Join(sep: string, parts: seq<string>): (r: string)
    ensures |parts| == 0 ==> r == []
  {
    if |parts| == 0 then []
    else if |parts| == 1 then parts[0]
    else Join(sep, parts[..|parts| - 1]) + sep + parts[|parts| - 1]
  }

  /** Text inside one joined part is inside the joined text. */
  lemma {:induction false} ContainsInJoin(sep: string, parts: seq<string>, k: nat, t: string)
    requires k < |parts| && Contains(parts[k], t)
    ensures Contains(Join(sep, parts), t)
    decreases |parts|
  {
    if |parts| == 1 {
    } else if k == |parts| - 1 {
      ContainsInMiddle(Join(sep, parts[..|parts| - 1]) + sep, parts[k], [], t);
      assert Join(sep, parts[..|parts| - 1]) + sep + parts[k] + [] == Join(sep, parts);
    } else {
      ContainsInJoin(sep, parts[..|parts| - 1], k, t);
      ContainsInMiddle([], Join(sep, parts[..|parts| - 1]), sep + parts[|parts| - 1], t);
      assert [] + Join(sep, parts[..|parts| - 1]) + (sep + parts[|parts| - 1]) == Join(sep, parts);
    }
  }

  /** The regex `^[a-zA-Z][a-zA-Z0-9_]*$` on text without a trailing newline. */
  predicate IsIdentifier(s: string) {
    |s| > 0 && IsLetter(s[0]) && AllWordChars(s)
  }

  function DigitValue(c: char): nat requires IsDigit(c) { c as int - '0' as int }

  function DigitChar(d: nat): (c: char)
    requires d < 10
    ensures IsDigit(c) && DigitValue(c) == d
  {
    ('0' as int + d) as char
  }

  /** Value of a run of decimal digits. */
  function DigitsValue(s: string): nat
    requires AllDigits(s)
  {
    if |s| == 0 then 0 else DigitsValue(s[..|s| - 1]) * 10 + DigitValue(s[|s| - 1])
  }

  /** `str(n)` for a natural number. */
  function NatToString(n: nat): (r: string)
    ensures |r| >= 1 && AllDigits(r)
  {
    if n < 10 then [DigitChar(n)] else NatToString(n / 10) + [DigitChar(n % 10)]
  }

  /** Reading back the decimal text of a number gives the number. */
  lemma {:induction false} NatToStringRoundTrip(n: nat)
    ensures DigitsValue(NatToString(n)) == n
  {
    if n >= 10 {
      NatToStringRoundTrip(n / 10);
      var r := NatToString(n);
      assert r[..|r| - 1] == NatToString(n / 10);
    }
  }
}
