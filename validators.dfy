/**
 * Input guardrails (src/utils/validators.py): the prompt-length and
 * metadata-id check, the prompt-injection scan over a fixed list of regular
 * expressions, and the regular-expression check of thread ids. Each regular
 * expression is written out as a sequence of pieces matched by hand.
 */
module Validators {
  import opened Wrappers
  import opened Strings
  import opened Scans
  import ThreadHelpers

  /** `settings.MAX_PROMPT_LENGTH` */
  const MaxPromptLength: nat := 5000

  function TooLongMessage(): string {
    "Prompt exceeds maximum length of " + NatToString(MaxPromptLength) + " characters"
  }

  const BadMetadataIdMessage: string := "Invalid metadata_id: must be positive integer"

  /**
   * `validate_user_input`: valid exactly when the prompt is within the length
   * limit and a given metadata id is positive; the length is checked first.
   */
  function ValidateUserInput(prompt: string, metadataId: Option<int>): (r: (bool, Option<string>))
    ensures r.0 <==> |prompt| <= MaxPromptLength && (metadataId.Some? ==> metadataId.value > 0)
    ensures r.0 <==> r.1.None?
    ensures |prompt| > MaxPromptLength ==> r.1 == Some(TooLongMessage())
    ensures |prompt| <= MaxPromptLength && !r.0 ==> r.1 == Some(BadMetadataIdMessage)
  {
    if |prompt| > MaxPromptLength then (false, Some(TooLongMessage()))
    else if metadataId.Some? && metadataId.value <= 0 then (false, Some(BadMetadataIdMessage))
    else (true, None)
  }

  /** One element of a regular expression: literal text, `\s+`, or a group of literal alternatives. */
  datatype Piece = Lit(text: string) | Spaces | OneOf(alternatives: seq<string>)

  predicate AllSpace(s: string) {
    forall i :: 0 <= i < |s| ==> IsSpace(s[i])
  }

  /** The pieces match `s` from index `i` on (not necessarily to the end). */
  predicate MatchesAt(s: string, i: nat, pieces: seq<Piece>)
    decreases |pieces|
  {
    if |pieces| == 0 then i <= |s|
    else
      match pieces[0]
      case Lit(t) => OccursAt(s, t, i) && MatchesAt(s, i + |t|, pieces[1..])
      case Spaces =>
        exists k :: i < k <= |s| && AllSpace(s[i..k]) && MatchesAt(s, k, pieces[1..])
      case OneOf(alts) =>
        exists a :: a in alts && OccursAt(s, a, i) && MatchesAt(s, i + |a|, pieces[1..])
  }

  /** `re.search`: the pieces match somewhere in `s`. */
  predicate Search(s: string, pieces: seq<Piece>) {
    exists i :: 0 <= i <= |s| && MatchesAt(s, i, pieces)
  }

  /** A suspicious pattern: its text as written in the source list and its pieces. */
  datatype Pattern = Pattern(source: string, pieces: seq<Piece>)

  /** `suspicious_patterns`, in list order. */
  const InjectionPatterns: seq<Pattern> := [
    Pattern("ignore\\s+(previous|all|above)\\s+instructions",
            [Lit("ignore"), Spaces, OneOf(["previous", "all", "above"]), Spaces, Lit("instructions")]),
    Pattern("forget\\s+your\\s+role", [Lit("forget"), Spaces, Lit("your"), Spaces, Lit("role")]),
    Pattern("you\\s+are\\s+now\\s+a", [Lit("you"), Spaces, Lit("are"), Spaces, Lit("now"), Spaces, Lit("a")]),
    Pattern("act\\s+as\\s+(admin|hacker|root)",
            [Lit("act"), Spaces, Lit("as"), Spaces, OneOf(["admin", "hacker", "root"])]),
    Pattern("system:", [Lit("system:")]),
    Pattern("assistant:", [Lit("assistant:")]),
    Pattern("<\\|im_start\\|>", [Lit("<|im_start|>")]),
    Pattern("developer\\s+mode", [Lit("developer"), Spaces, Lit("mode")]),
    Pattern("sudo\\s+mode", [Lit("sudo"), Spaces, Lit("mode")]),
    Pattern("god\\s+mode", [Lit("god"), Spaces, Lit("mode")]),
    Pattern("base64:", [Lit("base64:")]),
    Pattern("rot13:", [Lit("rot13:")])
  ]

  /** The first pattern of `patterns` that occurs in `lower`, reported by its text. */
  function FirstInjection(patterns: seq<Pattern>, lower: string): (r: (bool, Option<string>))
    ensures !r.0 <==> forall k :: 0 <= k < |patterns| ==> !Search(lower, patterns[k].pieces)
    ensures !r.0 ==> r.1 == None
    ensures r.0 ==> exists k :: 0 <= k < |patterns| && Search(lower, patterns[k].pieces)
                               && r.1 == Some(patterns[k].source)
                               && forall j :: 0 <= j < k ==> !Search(lower, patterns[j].pieces)
  {
    match FirstWhere(patterns, (p: Pattern) => Search(lower, p.pieces))
    case None => (false, None)
    case Some(k) => (true, Some(patterns[k].source))
  }

  /**
   * `detect_prompt_injection`: `(True, p)` for the first pattern `p` in list
   * order that occurs in the lower-cased prompt, `(False, None)` when none does.
   */
  function DetectPromptInjection(prompt: string): (r: (bool, Option<string>))
    ensures !r.0 <==> forall k :: 0 <= k < |InjectionPatterns| ==> !Search(Lower(prompt), InjectionPatterns[k].pieces)
    ensures !r.0 ==> r.1 == None
    ensures r.0 ==> exists k :: 0 <= k < |InjectionPatterns| && Search(Lower(prompt), InjectionPatterns[k].pieces)
                               && r.1 == Some(InjectionPatterns[k].source)
                               && forall j :: 0 <= j < k ==> !Search(Lower(prompt), InjectionPatterns[j].pieces)
  {
    FirstInjection(InjectionPatterns, Lower(prompt))
  }

  /** The injection verdict does not depend on the case of the prompt. */
  lemma InjectionIgnoresCase(prompt: string)
    ensures DetectPromptInjection(Upper(prompt)) == DetectPromptInjection(prompt)
  {
    LowerOfUpper(prompt);
  }

  /** A prompt holding `system:` in any case is flagged. */
  lemma SystemPrefixIsFlagged(prompt: string)
    requires Contains(Lower(prompt), "system:")
    ensures DetectPromptInjection(prompt).0
  {
    var s := Lower(prompt);
    ContainsAt(s, "system:");
    var i :| OccursAt(s, "system:", i);
    assert MatchesAt(s, i + 7, []);
    assert MatchesAt(s, i, InjectionPatterns[4].pieces);
  }

  /**
   * The text `re.match(r"^user_[\w]+_session_[\d]+$", ...)` must match in
   * full: `$` also matches just before one final newline.
   */
  function MatchBody(s: string): string {
    if |s| > 0 && s[|s| - 1] == '\n' then s[..|s| - 1] else s
  }

  /** `t` is `user_` + word characters + `_session_` + digits, the marker starting at `k`. */
  predicate ShapedAt(t: string, k: int) {
    StartsWith(t, "user_") && 5 < k && OccursAt(t, ThreadHelpers.Marker, k)
    && k + 9 < |t| && AllWordChars(t[5..k]) && AllDigits(t[k + 9..])
  }

  /** Start of the longest run of digits that ends `t`. */
  function DigitSuffixStart(t: string): (j: nat)
    ensures j <= |t| && AllDigits(t[j..])
    ensures j > 0 ==> !IsDigit(t[j - 1])
  {
    if |t| == 0 || !IsDigit(t[|t| - 1]) then |t|
    else
      var j := DigitSuffixStart(t[..|t| - 1]);
      assert t[j..] == t[..|t| - 1][j..] + [t[|t| - 1]];
      j
  }

  /**
   * `validate_thread_id`: the digit run ending the text must follow
   * `_session_`, and between `user_` and it lie one or more word characters.
   */
  predicate ValidThreadIdFormat(s: string) {
    var t := MatchBody(s);
    var j := DigitSuffixStart(t);
    j < |t| && j >= 15 && ShapedAt(t, j - 9)
  }

  /** The longest digit run ending `t` starts where a non-digit is followed only by digits. */
  lemma DigitSuffixStartAt(t: string, m: nat)
    requires m <= |t| && AllDigits(t[m..]) && (m > 0 ==> !IsDigit(t[m - 1]))
    ensures DigitSuffixStart(t) == m
  {
    var j := DigitSuffixStart(t);
    if j < m {
      assert false;
    }
    if j > m {
      assert false;
    }
  }

  /** The scan accepts exactly the texts the regular expression describes. */
  lemma ValidThreadIdFormatMeaning(s: string)
    ensures ValidThreadIdFormat(s) <==> exists k :: ShapedAt(MatchBody(s), k)
  {
    var t := MatchBody(s);
    var j := DigitSuffixStart(t);
    if ValidThreadIdFormat(s) {
      assert ShapedAt(t, j - 9);
    }
    forall k | ShapedAt(t, k) ensures ValidThreadIdFormat(s) {
      assert t[k + 8] == ThreadHelpers.Marker[8];
      DigitSuffixStartAt(t, k + 9);
    }
  }

  /** An occurrence of `_session_` has the letter `s` right after its first underscore. */
  lemma MarkerLetters(s: string, k: int)
    requires OccursAt(s, ThreadHelpers.Marker, k)
    ensures s[k + 1] == 's'
  {
    assert s[k..k + 9][1] == s[k + 1];
  }

  /**
   * A text whose last fifteen characters are digits and underscores, with an
   * underscore at the ninth of them, has no `_session_` followed by digits only.
   */
  lemma StampBreaksShape(s: string, p: nat)
    requires p + 15 == |s| && s[p + 8] == '_'
    requires forall x :: p <= x < |s| ==> IsDigit(s[x]) || s[x] == '_'
    ensures forall k :: !ShapedAt(s, k)
  {
    forall k | ShapedAt(s, k) ensures false {
      if k + 9 <= p + 8 {
        assert false;
      } else {
        MarkerLetters(s, k);
      }
    }
  }

  /**
   * Ids generated with the default `%Y%m%d_%H%M%S` timestamp (eight digits,
   * `_`, six digits) never pass the regular-expression check, because the
   * digits after the last `_session_` are interrupted by `_`.
   */
  lemma DefaultTimestampIdsFail(ident: string, date: string, time: string)
    requires |date| == 8 && AllDigits(date) && |time| == 6 && AllDigits(time)
    ensures !ValidThreadIdFormat("user_" + ident + ThreadHelpers.Marker + date + "_" + time)
  {
    var stamp := date + "_" + time;
    var s := "user_" + ident + ThreadHelpers.Marker + date + "_" + time;
    var p := 5 + |ident| + 9;
    assert s == "user_" + ident + ThreadHelpers.Marker + stamp;
    assert forall x :: p <= x < |s| ==> s[x] == stamp[x - p];
    assert forall x :: 0 <= x < |stamp| ==> (IsDigit(stamp[x]) || stamp[x] == '_') by {
      forall x | 0 <= x < |stamp| ensures IsDigit(stamp[x]) || stamp[x] == '_' {
        if x < 8 { assert stamp[x] == date[x]; }
        else if x > 8 { assert stamp[x] == time[x - 9]; }
      }
    }
    StampBreaksShape(s, p);
    assert MatchBody(s) == s;
    ValidThreadIdFormatMeaning(s);
  }
}
