// The metadata routes: the cap on `list_metadata`'s page size and the data
// dictionary of `get_data_dictionary`, which sorts the first table's columns
// into header, trailer and body sections and picks up to five sample fields.

module MetadataApi {
  import opened Wrappers
  import opened Strings
  import opened FeedbackParser

  /** Largest page `list_metadata` hands to the database. */
  const MaxListLimit := 100

  /** `list_metadata` lowers a limit above 100 to 100 and keeps any other. */
  function ListLimit(limit: int): (r: int)
    ensures r <= MaxListLimit
    ensures r == limit <==> limit <= MaxListLimit
    ensures r != limit ==> r == MaxListLimit
  {
    if limit > MaxListLimit then MaxListLimit else limit
  }

  /** A column of the stored metadata: a JSON object. */
  type Column = map<string, Json>

  datatype Table = Table(tableName: Json, columns: seq<Column>)

  /**
   * What the database holds for an id: no record, a record whose
   * `metadata_json` is empty, or the tables of its `metadata_json` (an absent
   * "tables" key reads as no tables).
   */
  datatype Stored = Missing | NoJson | Stored(tables: seq<Table>)

  datatype Section = Header | Trailer | Body

  /**
   * The section of a column, from its lower-cased `section_type` ("" when
   * absent); a value that is not a string has no `lower` and fails.
   */
  function SectionOf(c: Column): (r: Option<Section>)
    ensures r.None? <==> "section_type" in c && !c["section_type"].JStr?
  {
    var sectionType :=
      if "section_type" !in c then Some("")
      else match c["section_type"]
        case JStr(s) => Some(Lower(s))
        case _ => None;
    match sectionType
    case None => None
    case Some(t) =>
      if Contains(t, "header") then Some(Header)
      else if Contains(t, "trailer") || Contains(t, "footer") then Some(Trailer)
      else Some(Body)
  }

  datatype Buckets = Buckets(header: seq<Column>, trailer: seq<Column>, body: seq<Column>)

  /** The columns of one section, in order. */
  function InSection(columns: seq<Column>, s: Section): (r: seq<Column>)
    ensures |r| <= |columns|
    ensures forall c :: c in r <==> c in columns && SectionOf(c) == Some(s)
  {
    if |columns| == 0 then []
    else
      var init := InSection(columns[..|columns| - 1], s);
      var c := columns[|columns| - 1];
      assert forall x :: x in columns <==> x in columns[..|columns| - 1] || x == c;
      if SectionOf(c) == Some(s) then init + [c] else init
  }

  /** Whether every column has a usable `section_type`. */
  predicate AllSectioned(columns: seq<Column>) {
    forall i :: 0 <= i < |columns| ==> SectionOf(columns[i]).Some?
  }

  /** The three sections of the columns, or None when a column cannot be sectioned. */
  function Sections(columns: seq<Column>): Option<Buckets> {
    if AllSectioned(columns) then
      Some(Buckets(InSection(columns, Header), InSection(columns, Trailer), InSection(columns, Body)))
    else None
  }

  /** Every column of a sectioned table lands in exactly one section. */
  lemma {:induction false} SectionsPartition(columns: seq<Column>)
    requires AllSectioned(columns)
    ensures |InSection(columns, Header)| + |InSection(columns, Trailer)| + |InSection(columns, Body)|
            == |columns|
  {
    if |columns| > 0 {
      var init := columns[..|columns| - 1];
      assert AllSectioned(init) by {
        forall i | 0 <= i < |init| ensures SectionOf(init[i]).Some? {
          assert init[i] == columns[i];
        }
      }
      SectionsPartition(init);
      assert SectionOf(columns[|columns| - 1]).Some?;
    }
  }

  /** `xs[k:]` with Python's reading of a negative start. */
  function PyDrop<T>(xs: seq<T>, k: int): (r: seq<T>)
    ensures |r| <= |xs|
    ensures forall x :: x in r ==> x in xs
    ensures k >= 0 && k <= |xs| ==> r == xs[k..]
  {
    if k < 0 then (if |xs| + k <= 0 then xs else xs[|xs| + k..])
    else if k > |xs| then []
    else xs[k..]
  }

  /** One header field, one trailer field and up to two body fields, when there are. */
  function FirstPicks(b: Buckets): (r: seq<Column>)
    ensures |r| <= 4
  {
    (if |b.header| > 0 then [b.header[0]] else [])
    + (if |b.trailer| > 0 then [b.trailer[0]] else [])
    + (if |b.body| >= 2 then b.body[..2] else if |b.body| > 0 then [b.body[0]] else [])
  }

  /** `body_fields[i]` for `i` in `range(2, min(2 + remaining, len(body_fields)))`. */
  function MoreBody(body: seq<Column>, remaining: nat): (r: seq<Column>)
    ensures |r| <= remaining
  {
    var stop := if 2 + remaining < |body| then 2 + remaining else |body|;
    if stop > 2 then body[2..stop] else []
  }

  /** Appends the fields of `rest` not already present, stopping once five are held. */
  function FillDistinct(sample: seq<Column>, rest: seq<Column>): (r: seq<Column>)
    ensures |sample| <= |r| && r[..|sample|] == sample
    ensures forall x :: x in sample ==> x in r
    ensures |sample| >= 5 ==> r == sample
    ensures |sample| < 5 ==> |r| <= 5
    ensures forall x :: x in r ==> x in sample || x in rest
    ensures |r| < 5 ==> forall x :: x in rest ==> x in r
    decreases |rest|
  {
    if |rest| == 0 || |sample| >= 5 then sample
    else if rest[0] in sample then
      var r := FillDistinct(sample, rest[1..]);
      assert forall x :: x in rest ==> x == rest[0] || x in rest[1..];
      r
    else
      var r := FillDistinct(sample + [rest[0]], rest[1..]);
      assert r[|sample|] == (sample + [rest[0]])[|sample|];
      assert forall x :: x in rest ==> x == rest[0] || x in rest[1..];
      r
  }

  /** The candidates for the last fill: later header, trailer and body fields. */
  function Leftovers(b: Buckets, picked: nat): seq<Column> {
    PyDrop(b.header, 1) + PyDrop(b.trailer, 1) + PyDrop(b.body, picked - 2)
  }

  /** The sample fields chosen from the three sections. */
  function SampleFields(b: Buckets): (r: seq<Column>)
    ensures |r| <= 5
  {
    var first := FirstPicks(b);
    var remaining := 5 - |first|;
    var more := first + MoreBody(b.body, remaining);
    var filled := if |more| < 5 then FillDistinct(more, Leftovers(b, |more|)) else more;
    Prefix(filled, 5)
  }

  /** `xs[:n]` */
  function Prefix<T>(xs: seq<T>, n: nat): (r: seq<T>)
    ensures |r| <= n
    ensures |xs| <= n ==> r == xs
  {
    if |xs| <= n then xs else xs[..n]
  }

  datatype Response =
    | NotFound(detail: string)
    | ServerError
    | Dictionary(metadataId: string, tableName: Json, totalColumns: nat, sampleFields: seq<Column>,
                 headerCount: nat, bodyCount: nat, trailerCount: nat)

  function MissingMessage(metadataId: string): string {
    "Metadata ID '" + metadataId + "' not found"
  }

  /** The answer of `get_data_dictionary` for what the database holds under the id. */
  function DataDictionary(metadataId: string, stored: Stored): (r: Response)
    ensures r.NotFound? <==>
              !stored.Stored? || |stored.tables| == 0 || |stored.tables[0].columns| == 0
    ensures r.ServerError? <==>
              stored.Stored? && |stored.tables| > 0 && |stored.tables[0].columns| > 0
              && !AllSectioned(stored.tables[0].columns)
  {
    match stored
    case Missing => NotFound(MissingMessage(metadataId))
    case NoJson => NotFound("No metadata JSON found")
    case Stored(tables) =>
      if |tables| == 0 then NotFound("No tables found in metadata")
      else if |tables[0].columns| == 0 then NotFound("No columns found")
      else
        match Sections(tables[0].columns)
        case None => ServerError
        case Some(b) =>
          Dictionary(metadataId, tables[0].tableName, |tables[0].columns|, SampleFields(b),
                     |b.header|, |b.body|, |b.trailer|)
  }

  /** Every sample field is a field of one of the sections. */
  lemma SampleFromSections(b: Buckets)
    ensures forall c :: c in SampleFields(b) ==> c in b.header || c in b.trailer || c in b.body
  {
    var first := FirstPicks(b);
    var more := first + MoreBody(b.body, 5 - |first|);
    assert forall c :: c in more ==> c in b.header || c in b.trailer || c in b.body;
  }

  /** With a header field the sample starts with the first one. */
  lemma HeaderFieldFirst(b: Buckets)
    requires |b.header| > 0
    ensures |SampleFields(b)| > 0 && SampleFields(b)[0] == b.header[0]
  {
    var first := FirstPicks(b);
    var more := first + MoreBody(b.body, 5 - |first|);
    assert more[0] == b.header[0];
    var filled := if |more| < 5 then FillDistinct(more, Leftovers(b, |more|)) else more;
    assert filled[..|more|] == more;
    assert SampleFields(b) == Prefix(filled, 5);
  }

  /** With two body fields, the first two are in the sample ("at least 2 from body section"). */
  lemma BodyFieldsIncluded(b: Buckets)
    requires |b.body| >= 2
    ensures b.body[0] in SampleFields(b) && b.body[1] in SampleFields(b)
  {
    var first := FirstPicks(b);
    var more := first + MoreBody(b.body, 5 - |first|);
    var k := (if |b.header| > 0 then 1 else 0) + (if |b.trailer| > 0 then 1 else 0);
    assert first[k] == b.body[0] && first[k + 1] == b.body[1];
    assert more[k] == b.body[0] && more[k + 1] == b.body[1];
    var filled := if |more| < 5 then FillDistinct(more, Leftovers(b, |more|)) else more;
    assert filled[..|more|] == more;
    assert SampleFields(b) == Prefix(filled, 5);
    assert Prefix(filled, 5)[k] == b.body[0] && Prefix(filled, 5)[k + 1] == b.body[1];
  }

  /** With a trailer field the first one is in the sample. */
  lemma TrailerFieldIncluded(b: Buckets)
    requires |b.trailer| > 0
    ensures b.trailer[0] in SampleFields(b)
  {
    var first := FirstPicks(b);
    var more := first + MoreBody(b.body, 5 - |first|);
    var k := if |b.header| > 0 then 1 else 0;
    assert more[k] == b.trailer[0];
  }

  /**
   * The documented promise: with a header, a trailer and three body fields
   * the sample is the first header, the first trailer and the first three
   * body fields.
   */
  lemma FiveFromFullSections(b: Buckets)
    requires |b.header| >= 1 && |b.trailer| >= 1 && |b.body| >= 3
    ensures SampleFields(b) == [b.header[0], b.trailer[0], b.body[0], b.body[1], b.body[2]]
  {
    assert FirstPicks(b) == [b.header[0], b.trailer[0], b.body[0], b.body[1]];
    assert MoreBody(b.body, 1) == [b.body[2]];
  }

  /** A sample of fewer than five fields holds every field of every section. */
  lemma ShortSampleHoldsAll(b: Buckets)
    requires |SampleFields(b)| < 5
    ensures forall c :: c in b.header || c in b.trailer || c in b.body ==> c in SampleFields(b)
  {
    var first := FirstPicks(b);
    var remaining := 5 - |first|;
    var more := first + MoreBody(b.body, remaining);
    assert |more| < 5;
    var filled := FillDistinct(more, Leftovers(b, |more|));
    assert SampleFields(b) == filled;
    assert 2 + remaining >= |b.body|;
    forall c | c in b.header || c in b.trailer || c in b.body ensures c in filled {
      if c in b.header {
        var i :| 0 <= i < |b.header| && b.header[i] == c;
        if i == 0 { assert more[0] == c; } else { assert c in PyDrop(b.header, 1); }
      } else if c in b.trailer {
        var i :| 0 <= i < |b.trailer| && b.trailer[i] == c;
        if i == 0 {
          assert c in first;
        } else {
          assert c in PyDrop(b.trailer, 1);
        }
      } else {
        var i :| 0 <= i < |b.body| && b.body[i] == c;
        if i < 2 {
          assert c in first;
        } else {
          assert c == MoreBody(b.body, remaining)[i - 2];
        }
        assert c in more;
      }
    }
  }

  /**
   * A dictionary counts every column of the first table in one section and
   * samples at most five of those columns.
   */
  lemma DictionaryMeaning(metadataId: string, stored: Stored)
    requires DataDictionary(metadataId, stored).Dictionary?
    ensures var r := DataDictionary(metadataId, stored);
            var columns := stored.tables[0].columns;
            r.headerCount + r.bodyCount + r.trailerCount == r.totalColumns == |columns|
            && |r.sampleFields| <= 5
            && forall c :: c in r.sampleFields ==> c in columns
  {
    var columns := stored.tables[0].columns;
    SectionsPartition(columns);
    SampleFromSections(Sections(columns).value);
  }

  /** One more column extends its own section by itself and leaves the others alone. */
  lemma InSectionStep(columns: seq<Column>, i: nat, s: Section)
    requires i < |columns|
    ensures InSection(columns[..i + 1], s)
            == InSection(columns[..i], s) + (if SectionOf(columns[i]) == Some(s) then [columns[i]] else [])
  {
    assert columns[..i + 1][..i] == columns[..i];
  }

  /** A prefix of sectioned columns grows by a sectioned column. */
  lemma AllSectionedStep(columns: seq<Column>, i: nat)
    requires i < |columns| && AllSectioned(columns[..i]) && SectionOf(columns[i]).Some?
    ensures AllSectioned(columns[..i + 1])
  {
    var prefix := columns[..i + 1];
    forall k | 0 <= k < |prefix| ensures SectionOf(prefix[k]).Some? {
      if k < i {
        assert prefix[k] == columns[..i][k];
      }
    }
  }

  /** The bucketing loop of `get_data_dictionary`; None when a `section_type` has no `lower`. */
  method BucketColumns(columns: seq<Column>) returns (r: Option<Buckets>)
    ensures r == Sections(columns)
  {
    var header: seq<Column> := [];
    var trailer: seq<Column> := [];
    var body: seq<Column> := [];
    for i := 0 to |columns|
      invariant AllSectioned(columns[..i])
      invariant header == InSection(columns[..i], Header)
      invariant trailer == InSection(columns[..i], Trailer)
      invariant body == InSection(columns[..i], Body)
    {
      var column := columns[i];
      var sectionType: string;
      if "section_type" !in column {
        sectionType := "";
      } else if column["section_type"].JStr? {
        sectionType := Lower(column["section_type"].s);
      } else {
        assert SectionOf(columns[i]).None?;
        return None;
      }
      InSectionStep(columns, i, Header);
      InSectionStep(columns, i, Trailer);
      InSectionStep(columns, i, Body);
      if Contains(sectionType, "header") {
        assert SectionOf(column) == Some(Header);
        header := header + [column];
      } else if Contains(sectionType, "trailer") || Contains(sectionType, "footer") {
        assert SectionOf(column) == Some(Trailer);
        trailer := trailer + [column];
      } else {
        assert SectionOf(column) == Some(Body);
        body := body + [column];
      }
      AllSectionedStep(columns, i);
    }
    assert columns[..|columns|] == columns;
    return Some(Buckets(header, trailer, body));
  }

  /** The last fill: leftovers not yet sampled, until five are held. */
  method FillSample(start: seq<Column>, leftovers: seq<Column>) returns (sample: seq<Column>)
    ensures sample == FillDistinct(start, leftovers)
  {
    sample := start;
    for j := 0 to |leftovers|
      invariant FillDistinct(sample, leftovers[j..]) == FillDistinct(start, leftovers)
    {
      if |sample| >= 5 {
        break;
      }
      if leftovers[j] !in sample {
        sample := sample + [leftovers[j]];
      }
      assert leftovers[j..][1..] == leftovers[j + 1..];
    }
  }

  /** The first picks: a header field, a trailer field and up to two body fields. */
  method FirstSample(header: seq<Column>, trailer: seq<Column>, body: seq<Column>)
    returns (sample: seq<Column>)
    ensures sample == FirstPicks(Buckets(header, trailer, body))
  {
    sample := [];
    if |header| > 0 {
      sample := sample + [header[0]];
    }
    if |trailer| > 0 {
      sample := sample + [trailer[0]];
    }
    if |body| >= 2 {
      sample := sample + body[..2];
    } else if |body| > 0 {
      sample := sample + [body[0]];
    }
  }

  /** The loop over `range(2, min(2 + remaining, len(body_fields)))`. */
  method ExtendFromBody(start: seq<Column>, body: seq<Column>, remaining: nat)
    returns (sample: seq<Column>)
    ensures sample == start + MoreBody(body, remaining)
  {
    sample := start;
    var stop := if 2 + remaining < |body| then 2 + remaining else |body|;
    if stop > 2 {
      for i := 2 to stop
        invariant sample == start + body[2..i]
      {
        assert body[2..i + 1] == body[2..i] + [body[i]];
        sample := sample + [body[i]];
      }
    }
  }

  /** The sample selection of `get_data_dictionary`. */
  method PickSamples(header: seq<Column>, trailer: seq<Column>, body: seq<Column>)
    returns (sample: seq<Column>)
    ensures sample == SampleFields(Buckets(header, trailer, body))
  {
    ghost var b := Buckets(header, trailer, body);
    sample := FirstSample(header, trailer, body);
    var remaining := 5 - |sample|;
    if remaining > 0 {
      sample := ExtendFromBody(sample, body, remaining);
      if |sample| < 5 {
        var leftovers := PyDrop(header, 1) + PyDrop(trailer, 1) + PyDrop(body, |sample| - 2);
        assert leftovers == Leftovers(b, |sample|);
        sample := FillSample(sample, leftovers);
      }
    }
    sample := Prefix(sample, 5);
  }

  /** `get_data_dictionary`: section the first table's columns and pick the sample fields. */
  method GetDataDictionary(metadataId: string, stored: Stored) returns (r: Response)
    ensures r == DataDictionary(metadataId, stored)
  {
    if stored.Missing? {
      return NotFound(MissingMessage(metadataId));
    }
    if stored.NoJson? {
      return NotFound("No metadata JSON found");
    }
    var tables := stored.tables;
    if |tables| == 0 {
      return NotFound("No tables found in metadata");
    }
    var table := tables[0];
    var columns := table.columns;
    if |columns| == 0 {
      return NotFound("No columns found");
    }
    var sections := BucketColumns(columns);
    if sections.None? {
      return ServerError;
    }
    var b := sections.value;
    var sample := PickSamples(b.header, b.trailer, b.body);
    return Dictionary(metadataId, table.tableName, |columns|, sample,
                      |b.header|, |b.body|, |b.trailer|);
  }
}
