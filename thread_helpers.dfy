/**
 * Thread identifiers for workflow checkpoints (src/utils/thread_helpers.py):
 * `user_{identifier}_session_{timestamp}`, built from a user id, a UI session
 * id or an anonymous hex tag, and read back by splitting on `_session_`.
 * The clock reading, the random tag and ISO-timestamp reformatting are inputs.
 */
module ThreadHelpers {
  import opened Wrappers
  import opened Strings

  const Marker: string := "_session_"

  /** Python truthiness of an optional string: present and non-empty. */
  predicate Truthy(o: Option<string>) {
    o.Some? && |o.value| > 0
  }

  /** The identifier, by priority: user id, then `session_` + session id, then `anon_` + hex tag. */
  function Identifier(userId: Option<string>, sessionId: Option<string>, anonHex: string): string {
    if Truthy(userId) then userId.value
    else if Truthy(sessionId) then "session_" + sessionId.value
    else "anon_" + anonHex
  }

  /**
   * The timestamp part: the formatted clock reading `now` when none is given,
   * the result of ISO reformatting `fromIso` (which may fail) when the given
   * text holds a 'T', and the given text verbatim otherwise.
   */
  function Timestamp(given: Option<string>, now: string, fromIso: string -> Result<string>): Result<string> {
    if given.None? then Ok(now)
    else if 'T' in given.value then fromIso(given.value)
    else Ok(given.value)
  }

  /** `generate_thread_id` */
  function GenerateThreadId(userId: Option<string>, sessionId: Option<string>, anonHex: string,
                            given: Option<string>, now: string,
                            fromIso: string -> Result<string>): (r: Result<string>)
    ensures r.Err? ==> given.Some? && 'T' in given.value
    ensures r.Ok? ==> StartsWith(r.value, "user_")
    ensures given.Some? && 'T' !in given.value ==>
              r == Ok("user_" + Identifier(userId, sessionId, anonHex) + Marker + given.value)
  {
    match Timestamp(given, now, fromIso)
    case Err(e) => Err(e)
    case Ok(ts) => Ok("user_" + Identifier(userId, sessionId, anonHex) + Marker + ts)
  }

  /** The fields `parse_thread_id` returns. */
  datatype ThreadInfo = ThreadInfo(userId: string, timestamp: string, isAnonymous: bool)

  /** `user_id.startswith("anon_") or user_id.startswith("session_")` */
  predicate IsAnonymousId(userId: string) {
    StartsWith(userId, "anon_") || StartsWith(userId, "session_")
  }

  function InvalidFormat(threadId: string): string {
    "Invalid thread_id format: " + threadId
  }

  /**
   * `parse_thread_id`: the id must split on `_session_` into exactly two parts
   * and the first must start with `user_`; the user id is that part without
   * its prefix. A successful parse reads the whole id back.
   */
  function ParseThreadId(threadId: string): (r: Result<ThreadInfo>)
    ensures r.Ok? <==> |Split(threadId, Marker)| == 2 && StartsWith(Split(threadId, Marker)[0], "user_")
    ensures r.Err? ==> r.error == InvalidFormat(threadId)
    ensures r.Ok? ==> threadId == "user_" + r.value.userId + Marker + r.value.timestamp
    ensures r.Ok? ==> (r.value.isAnonymous <==> IsAnonymousId(r.value.userId))
  {
    var parts := Split(threadId, Marker);
    if |parts| != 2 then Err(InvalidFormat(threadId))
    else if !StartsWith(parts[0], "user_") then Err(InvalidFormat(threadId))
    else
      SplitInTwo(threadId, Marker);
      assert parts[0] == "user_" + parts[0][5..];
      var userId := parts[0][5..];
      Ok(ThreadInfo(userId, parts[1], IsAnonymousId(userId)))
  }

  /** `validate_thread_id`: whether parsing succeeds. */
  predicate ValidateThreadId(threadId: string) {
    ParseThreadId(threadId).Ok?
  }

  /**
   * When `_session_` occurs only where the generator put it, parsing the
   * generated text gives back the identifier and the timestamp.
   */
  lemma ComposedIdParses(ident: string, ts: string)
    requires forall i :: OccursAt("user_" + ident + Marker + ts, Marker, i) ==> i == 5 + |ident|
    ensures ParseThreadId("user_" + ident + Marker + ts) == Ok(ThreadInfo(ident, ts, IsAnonymousId(ident)))
  {
    var s := "user_" + ident + Marker + ts;
    var p := 5 + |ident|;
    assert s[p..p + |Marker|] == Marker;
    SplitOfUnique(s, Marker, p);
    assert s[..p] == "user_" + ident;
    assert s[p + |Marker|..] == ts;
  }

  /**
   * Round trip: a generated id in which `_session_` occurs exactly once parses
   * back to the identifier it was built from and the timestamp it carries.
   */
  lemma GenerateParseRoundTrip(userId: Option<string>, sessionId: Option<string>, anonHex: string,
                               given: Option<string>, now: string,
                               fromIso: string -> Result<string>, id: string)
    requires GenerateThreadId(userId, sessionId, anonHex, given, now, fromIso) == Ok(id)
    requires forall i :: OccursAt(id, Marker, i) ==> i == 5 + |Identifier(userId, sessionId, anonHex)|
    ensures ParseThreadId(id).Ok?
    ensures ParseThreadId(id).value.userId == Identifier(userId, sessionId, anonHex)
    ensures Truthy(userId) ==> ParseThreadId(id).value.userId == userId.value
    ensures ParseThreadId(id).value.timestamp == Timestamp(given, now, fromIso).value
  {
    ComposedIdParses(Identifier(userId, sessionId, anonHex), Timestamp(given, now, fromIso).value);
  }

  /**
   * Ids built from a session id start with `user_session_`, so `_session_`
   * occurs twice: they never parse and never validate.
   */
  lemma SessionIdsNeverParse(userId: Option<string>, sessionId: Option<string>, anonHex: string,
                             given: Option<string>, now: string,
                             fromIso: string -> Result<string>, id: string)
    requires GenerateThreadId(userId, sessionId, anonHex, given, now, fromIso) == Ok(id)
    requires !Truthy(userId) && Truthy(sessionId)
    ensures ParseThreadId(id).Err?
    ensures !ValidateThreadId(id)
  {
    var sid := sessionId.value;
    var ts := Timestamp(given, now, fromIso).value;
    assert id == "user" + Marker + sid + Marker + ts;
    assert id[4..4 + |Marker|] == Marker;
    var j := 4 + |Marker| + |sid|;
    assert id[j..j + |Marker|] == Marker;
    SplitTwoOccurrences(id, Marker, 4, j);
  }

  /** Anonymous ids that parse are reported as anonymous. */
  lemma AnonymousIdsParseAsAnonymous(sessionId: Option<string>, anonHex: string,
                                     given: Option<string>, now: string,
                                     fromIso: string -> Result<string>, id: string)
    requires GenerateThreadId(None, sessionId, anonHex, given, now, fromIso) == Ok(id)
    requires !Truthy(sessionId)
    requires forall i :: OccursAt(id, Marker, i) ==> i == 10 + |anonHex|
    ensures ParseThreadId(id).Ok? && ParseThreadId(id).value.isAnonymous
  {
    GenerateParseRoundTrip(None, sessionId, anonHex, given, now, fromIso, id);
    assert StartsWith("anon_" + anonHex, "anon_");
  }
}
