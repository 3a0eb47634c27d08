/**
 * Steps 3 to 5 of the section scorer (document_parser.py,
 * `_extract_classification_tables`): keep the first candidate of each
 * name, rank the survivors by header score and by trailer score with
 * Python's stable descending sort, take the six best header names and the
 * best three trailer names that are not headers, call everything else
 * body, and build the `{is_header, is_body, is_trailer}` map.
 */
module ClassificationMap {
  import opened Wrappers
  import opened Strings
  import opened ColumnTypes
  import opened TableShapes
  import opened SectionScores
  import opened StableSort
  import opened ClassificationTables

  // ---------------------------------------------------------------------
  // Step 3: keep the first occurrence of each name
  // ---------------------------------------------------------------------

  /** The candidates whose name no earlier candidate has, in order. */
  function FirstOccurrences(cs: seq<Candidate>): (u: seq<Candidate>)
    ensures DistinctNames(u)
    ensures forall c :: c in u ==> c in cs
    ensures NamesIn(u) == NamesIn(cs)
  {
    if |cs| == 0 then []
    else
      var init := cs[..|cs| - 1];
      var last := cs[|cs| - 1];
      var prev := FirstOccurrences(init);
      assert cs == init + [last];
      assert NamesIn(cs) == NamesIn(init) + {last.name};
      if last.name in NamesIn(prev) then prev
      else
        assert NamesIn(prev + [last]) == NamesIn(prev) + {last.name};
        prev + [last]
  }

  /** A candidate whose name no earlier candidate has survives deduplication. */
  lemma {:induction false} FirstOccurrenceKept(cs: seq<Candidate>, i: nat)
    requires i < |cs|
    requires forall j :: 0 <= j < i ==> cs[j].name != cs[i].name
    ensures cs[i] in FirstOccurrences(cs)
  {
    var init := cs[..|cs| - 1];
    if i < |cs| - 1 {
      FirstOccurrenceKept(init, i);
    }
  }

  /** The one candidate kept for a name is that name's first occurrence. */
  lemma KeptIsFirst(cs: seq<Candidate>, i: nat, c: Candidate)
    requires i < |cs|
    requires forall j :: 0 <= j < i ==> cs[j].name != cs[i].name
    requires c in FirstOccurrences(cs) && c.name == cs[i].name
    ensures c == cs[i]
  {
    var u := FirstOccurrences(cs);
    FirstOccurrenceKept(cs, i);
    var p :| 0 <= p < |u| && u[p] == c;
    var q :| 0 <= q < |u| && u[q] == cs[i];
    assert p == q;
  }

  /** Step 3 of the scorer: the `seen_fields` loop. */
  method Deduplicate(allFields: seq<Candidate>) returns (uniqueFields: seq<Candidate>)
    ensures uniqueFields == FirstOccurrences(allFields)
  {
    var seenFields: set<string> := {};
    uniqueFields := [];
    var i := 0;
    while i < |allFields|
      invariant 0 <= i <= |allFields|
      invariant uniqueFields == FirstOccurrences(allFields[..i])
      invariant seenFields == NamesIn(uniqueFields)
    {
      var field := allFields[i];
      assert allFields[..i + 1] == allFields[..i] + [field];
      assert allFields[..i + 1][..i] == allFields[..i];
      if field.name !in seenFields {
        seenFields := seenFields + {field.name};
        assert NamesIn(uniqueFields + [field]) == NamesIn(uniqueFields) + {field.name};
        uniqueFields := uniqueFields + [field];
      }
      i := i + 1;
    }
    assert allFields[..i] == allFields;
  }

  // ---------------------------------------------------------------------
  // Step 4: rank by score and pick the header, trailer and body sets
  // ---------------------------------------------------------------------

  /** The first `k` entries, or all of them when there are fewer (`cs[:k]`). */
  function Prefix(cs: seq<Candidate>, k: nat): (r: seq<Candidate>)
    ensures |r| == if k < |cs| then k else |cs|
    ensures forall p :: 0 <= p < |r| ==> r[p] == cs[p]
  {
    cs[..if k < |cs| then k else |cs|]
  }

  /** Every candidate's header score, in order. */
  function HeaderKeys(u: seq<Candidate>): (keys: seq<nat>)
    ensures |keys| == |u|
  {
    seq(|u|, i requires 0 <= i < |u| => ScoresOfCandidate(u[i]).header)
  }

  /** Every candidate's trailer score, in order. */
  function TrailerKeys(u: seq<Candidate>): (keys: seq<nat>)
    ensures |keys| == |u|
  {
    seq(|u|, i requires 0 <= i < |u| => ScoresOfCandidate(u[i]).trailer)
  }

  /** `sorted(u, key=..., reverse=True)`: `u` in the stable descending order of `keys`. */
  function Ranked(u: seq<Candidate>, keys: seq<nat>): (r: seq<Candidate>)
    requires |keys| == |u|
    ensures |r| == |u|
    ensures forall p :: 0 <= p < |u| ==> r[p] == u[SortIndices(keys, |u|)[p]]
  {
    var order := SortIndices(keys, |u|);
    seq(|u|, p requires 0 <= p < |u| => u[order[p]])
  }

  /** The names of the first `k` candidates in the ranking by `keys`. */
  function TopNames(u: seq<Candidate>, keys: seq<nat>, k: nat): set<string>
    requires |keys| == |u|
  {
    NamesIn(Prefix(Ranked(u, keys), k))
  }

  /** The six names with the best header scores. */
  function HeaderFields(u: seq<Candidate>): set<string> {
    TopNames(u, HeaderKeys(u), 6)
  }

  /** Of the three names with the best trailer scores, those that are not headers. */
  function TrailerFields(u: seq<Candidate>): set<string> {
    TopNames(u, TrailerKeys(u), 3) - HeaderFields(u)
  }

  /** Every other name. */
  function BodyFields(u: seq<Candidate>): set<string> {
    NamesIn(u) - HeaderFields(u) - TrailerFields(u)
  }

  /** Distinct names: as many names as candidates. */
  lemma {:induction false} NamesInSize(cs: seq<Candidate>)
    requires DistinctNames(cs)
    ensures |NamesIn(cs)| == |cs|
  {
    if |cs| > 0 {
      var init := cs[..|cs| - 1];
      var last := cs[|cs| - 1];
      assert cs == init + [last];
      NamesInSize(init);
      assert NamesIn(cs) == NamesIn(init) + {last.name};
      assert last.name !in NamesIn(init);
    }
  }

  /** Ranking reorders the candidates, so distinct names stay distinct. */
  lemma RankedDistinct(u: seq<Candidate>, keys: seq<nat>)
    requires |keys| == |u| && DistinctNames(u)
    ensures DistinctNames(Ranked(u, keys))
  {
    SortIndicesDistinct(keys, |u|);
  }

  /** `k` best names, or all of them when there are fewer than `k`. */
  lemma TopNamesSize(u: seq<Candidate>, keys: seq<nat>, k: nat)
    requires |keys| == |u| && DistinctNames(u)
    ensures TopNames(u, keys, k) <= NamesIn(u)
    ensures |TopNames(u, keys, k)| == if k < |u| then k else |u|
  {
    var r := Ranked(u, keys);
    RankedDistinct(u, keys);
    NamesInSize(Prefix(r, k));
    forall name | name in TopNames(u, keys, k) ensures name in NamesIn(u) {
      var c :| c in Prefix(r, k) && c.name == name;
      var p :| 0 <= p < |Prefix(r, k)| && Prefix(r, k)[p] == c;
      assert u[SortIndices(keys, |u|)[p]] == c;
    }
  }

  /**
   * Whoever is among the `k` best comes before whoever is not: a higher
   * key, or the same key and an earlier position.
   */
  lemma TopNamesBeatRest(u: seq<Candidate>, keys: seq<nat>, k: nat, i: nat, j: nat)
    requires |keys| == |u| && DistinctNames(u)
    requires i < |u| && j < |u|
    requires u[i].name in TopNames(u, keys, k) && u[j].name !in TopNames(u, keys, k)
    ensures Precedes(keys, i, j)
  {
    var n := |u|;
    var order := SortIndices(keys, n);
    var r := Ranked(u, keys);
    var top := Prefix(r, k);
    var c :| c in top && c.name == u[i].name;
    var p :| 0 <= p < |top| && top[p] == c;
    assert u[order[p]].name == u[i].name;
    assert order[p] == i;
    assert j in order;
    var q :| 0 <= q < n && order[q] == j;
    TopK(keys, n, |top|, p, q);
  }

  // ---------------------------------------------------------------------
  // Step 5: the classification map
  // ---------------------------------------------------------------------

  /** The `{is_header, is_body, is_trailer}` entry of every name of `u`. */
  function MapOf(u: seq<Candidate>, headerFields: set<string>, bodyFields: set<string>, trailerFields: set<string>): map<string, Flags> {
    map name | name in NamesIn(u) :: Flags(name in headerFields, name in bodyFields, name in trailerFields)
  }

  /** The map for the unique candidates `u`: one entry per name, each naming exactly one section. */
  function ClassificationFor(u: seq<Candidate>): (m: map<string, Flags>)
    ensures m.Keys == NamesIn(u)
    ensures forall name :: name in m ==> ExactlyOne(m[name])
    ensures forall name :: name in m ==>
      (m[name].isHeader <==> name in HeaderFields(u)) && (m[name].isTrailer <==> name in TrailerFields(u))
  {
    MapOf(u, HeaderFields(u), BodyFields(u), TrailerFields(u))
  }

  /** The unique candidates of a document's tables. */
  function UniqueCandidates(tables: seq<RawTable>): (u: seq<Candidate>)
    ensures DistinctNames(u)
  {
    var spec := SpecTables(tables);
    FirstOccurrences(AllCandidates(spec))
  }

  /** What `_extract_classification_tables` returns for a document with tables `tables`. */
  function ClassificationOfTables(tables: seq<RawTable>): map<string, Flags> {
    ClassificationFor(UniqueCandidates(tables))
  }

  // ---------------------------------------------------------------------
  // The loops of steps 4 and 5
  // ---------------------------------------------------------------------

  lemma NamesInStep(cs: seq<Candidate>, i: nat)
    requires i < |cs|
    ensures NamesIn(cs[..i + 1]) == NamesIn(cs[..i]) + {cs[i].name}
  {
    assert cs[..i + 1] == cs[..i] + [cs[i]];
  }

  /** The header loop: the names of the first six ranked candidates. */
  method SelectHeaderFields(headerCandidates: seq<Candidate>) returns (headerFields: set<string>)
    ensures headerFields == NamesIn(Prefix(headerCandidates, 6))
  {
    var top := Prefix(headerCandidates, 6);
    headerFields := {};
    var i := 0;
    while i < |top|
      invariant 0 <= i <= |top|
      invariant headerFields == NamesIn(top[..i])
    {
      NamesInStep(top, i);
      headerFields := headerFields + {top[i].name};
      i := i + 1;
    }
    assert top[..i] == top;
  }

  /** The trailer loop: the names of the first three ranked candidates that are not headers. */
  method SelectTrailerFields(trailerCandidates: seq<Candidate>, headerFields: set<string>) returns (trailerFields: set<string>)
    ensures trailerFields == NamesIn(Prefix(trailerCandidates, 3)) - headerFields
  {
    var top := Prefix(trailerCandidates, 3);
    trailerFields := {};
    var i := 0;
    while i < |top|
      invariant 0 <= i <= |top|
      invariant trailerFields == NamesIn(top[..i]) - headerFields
    {
      NamesInStep(top, i);
      if top[i].name !in headerFields {
        trailerFields := trailerFields + {top[i].name};
      }
      i := i + 1;
    }
    assert top[..i] == top;
  }

  /** The body loop: every name that is neither header nor trailer. */
  method SelectBodyFields(uniqueFields: seq<Candidate>, headerFields: set<string>, trailerFields: set<string>)
    returns (bodyFields: set<string>)
    ensures bodyFields == NamesIn(uniqueFields) - headerFields - trailerFields
  {
    bodyFields := {};
    var i := 0;
    while i < |uniqueFields|
      invariant 0 <= i <= |uniqueFields|
      invariant bodyFields == NamesIn(uniqueFields[..i]) - headerFields - trailerFields
    {
      NamesInStep(uniqueFields, i);
      var name := uniqueFields[i].name;
      if name !in headerFields && name !in trailerFields {
        bodyFields := bodyFields + {name};
      }
      i := i + 1;
    }
    assert uniqueFields[..i] == uniqueFields;
  }

  lemma MapOfStep(u: seq<Candidate>, i: nat, headerFields: set<string>, bodyFields: set<string>, trailerFields: set<string>)
    requires i < |u|
    ensures MapOf(u[..i + 1], headerFields, bodyFields, trailerFields)
         == MapOf(u[..i], headerFields, bodyFields, trailerFields)[u[i].name :=
              Flags(u[i].name in headerFields, u[i].name in bodyFields, u[i].name in trailerFields)]
  {
    NamesInStep(u, i);
  }

  /** Step 5 of the scorer: one map entry per unique name. */
  method BuildClassificationMap(uniqueFields: seq<Candidate>, headerFields: set<string>, bodyFields: set<string>, trailerFields: set<string>)
    returns (classificationMap: map<string, Flags>)
    ensures classificationMap == MapOf(uniqueFields, headerFields, bodyFields, trailerFields)
  {
    classificationMap := map[];
    var i := 0;
    while i < |uniqueFields|
      invariant 0 <= i <= |uniqueFields|
      invariant classificationMap == MapOf(uniqueFields[..i], headerFields, bodyFields, trailerFields)
    {
      MapOfStep(uniqueFields, i, headerFields, bodyFields, trailerFields);
      var fieldName := uniqueFields[i].name;
      classificationMap := classificationMap[fieldName := Flags(fieldName in headerFields, fieldName in bodyFields, fieldName in trailerFields)];
      i := i + 1;
    }
    assert uniqueFields[..i] == uniqueFields;
  }

  /** `_extract_classification_tables` on a document with tables `tables`. */
  method ExtractClassificationTables(tables: seq<RawTable>) returns (classificationMap: map<string, Flags>)
    ensures classificationMap == ClassificationOfTables(tables)
  {
    var specTables := CollectSpecTables(tables);
    var allFields := CollectCandidates(specTables);
    var uniqueFields := Deduplicate(allFields);
    var headerCandidates := Ranked(uniqueFields, HeaderKeys(uniqueFields));
    var trailerCandidates := Ranked(uniqueFields, TrailerKeys(uniqueFields));
    var headerFields := SelectHeaderFields(headerCandidates);
    var trailerFields := SelectTrailerFields(trailerCandidates, headerFields);
    var bodyFields := SelectBodyFields(uniqueFields, headerFields, trailerFields);
    classificationMap := BuildClassificationMap(uniqueFields, headerFields, bodyFields, trailerFields);
  }

  // ---------------------------------------------------------------------
  // What the map promises
  // ---------------------------------------------------------------------

  /** The header set has six names, or every name when there are fewer. */
  lemma HeaderCount(u: seq<Candidate>)
    requires DistinctNames(u)
    ensures HeaderFields(u) <= NamesIn(u)
    ensures |HeaderFields(u)| == if |u| < 6 then |u| else 6
  {
    TopNamesSize(u, HeaderKeys(u), 6);
  }

  /** The trailer set has at most three names, none of them a header. */
  lemma TrailerCount(u: seq<Candidate>)
    requires DistinctNames(u)
    ensures TrailerFields(u) <= NamesIn(u)
    ensures |TrailerFields(u)| <= 3
    ensures TrailerFields(u) !! HeaderFields(u)
  {
    TopNamesSize(u, TrailerKeys(u), 3);
  }

  /**
   * Every header beats every other name on header score; on a tie the
   * header comes first in document order.
   */
  lemma HeadersWinOnHeaderScore(u: seq<Candidate>, i: nat, j: nat)
    requires DistinctNames(u) && i < |u| && j < |u|
    requires u[i].name in HeaderFields(u) && u[j].name !in HeaderFields(u)
    ensures ScoresOfCandidate(u[i]).header > ScoresOfCandidate(u[j]).header
         || (ScoresOfCandidate(u[i]).header == ScoresOfCandidate(u[j]).header && i < j)
  {
    var keys := HeaderKeys(u);
    TopNamesBeatRest(u, keys, 6, i, j);
    assert keys[i] == ScoresOfCandidate(u[i]).header && keys[j] == ScoresOfCandidate(u[j]).header;
  }

  /**
   * Every trailer beats every body name on trailer score; on a tie the
   * trailer comes first in document order.
   */
  lemma TrailersWinOverBody(u: seq<Candidate>, i: nat, j: nat)
    requires DistinctNames(u) && i < |u| && j < |u|
    requires u[i].name in TrailerFields(u) && u[j].name in BodyFields(u)
    ensures ScoresOfCandidate(u[i]).trailer > ScoresOfCandidate(u[j]).trailer
         || (ScoresOfCandidate(u[i]).trailer == ScoresOfCandidate(u[j]).trailer && i < j)
  {
    var keys := TrailerKeys(u);
    TopNamesBeatRest(u, keys, 3, i, j);
    assert keys[i] == ScoresOfCandidate(u[i]).trailer && keys[j] == ScoresOfCandidate(u[j]).trailer;
  }

  lemma SameSizeSubset(a: set<string>, b: set<string>)
    requires a <= b && |a| == |b|
    ensures a == b
  {
    assert b == a + (b - a);
  }

  /** With six names or fewer every name is a header, whatever its scores. */
  lemma FewFieldsAreAllHeader(u: seq<Candidate>)
    requires DistinctNames(u) && |u| <= 6
    ensures HeaderFields(u) == NamesIn(u)
  {
    HeaderCount(u);
    NamesInSize(u);
    SameSizeSubset(HeaderFields(u), NamesIn(u));
  }

  /**
   * The unique candidates' names are exactly the identifier-shaped field
   * cells of the data rows of the specification tables.
   */
  lemma UniqueCandidateNames(tables: seq<RawTable>, name: string)
    ensures name in NamesIn(UniqueCandidates(tables))
        <==> exists k :: 0 <= k < |SpecTables(tables)| && InFieldColumn(SpecTables(tables)[k], name)
  {
    AllCandidatesNames(SpecTables(tables), name);
  }

  /** The map's keys are exactly the identifier-shaped field cells of the specification tables. */
  lemma ClassificationKeys(tables: seq<RawTable>, name: string)
    ensures name in ClassificationOfTables(tables)
        <==> exists k :: 0 <= k < |SpecTables(tables)| && InFieldColumn(SpecTables(tables)[k], name)
  {
    UniqueCandidateNames(tables, name);
  }

  /** Every key is identifier-shaped. */
  lemma KeysAreIdentifiers(tables: seq<RawTable>, name: string)
    requires name in ClassificationOfTables(tables)
    ensures IsIdentifier(name)
  {
    ClassificationKeys(tables, name);
    FieldColumnNameIsIdentifier(SpecTables(tables), name);
  }
}
