/**
 * The supervisor of the agent workflow (src/agents/supervisor.py): a keyword
 * heuristic that picks the intent of a prompt, the node that records it in
 * the shared state, and the routing function that picks the next node from
 * the state's flags.
 */
module Supervisor {
  import opened Wrappers
  import opened Strings

  /** `settings.MAX_FEEDBACK_ITERATIONS` */
  const MaxFeedbackIterations: int := 10

  /** The intents the heuristic can detect. */
  datatype Intent = DocParse | Ddl | Data | Both | Lineage | Qa | Search

  /** The name stored in `state["intent"]`. */
  function IntentName(i: Intent): string {
    match i
    case DocParse => "doc_parse"
    case Ddl => "ddl"
    case Data => "data"
    case Both => "both"
    case Lineage => "lineage"
    case Qa => "qa"
    case Search => "search"
  }

  /** `any(kw in text for kw in keywords)` */
  predicate AnyIn(text: string, keywords: seq<string>) {
    exists k :: 0 <= k < |keywords| && Contains(text, keywords[k])
  }

  /** The first group (in list order) with a keyword in `text`, or `default` when none has one. */
  function FirstGroup(groups: seq<(Intent, seq<string>)>, text: string, default: Intent): (r: Intent)
    ensures (forall g :: 0 <= g < |groups| ==> !AnyIn(text, groups[g].1)) ==> r == default
    ensures r == default || exists g :: 0 <= g < |groups| && r == groups[g].0 && AnyIn(text, groups[g].1)
                                       && forall h :: 0 <= h < g ==> !AnyIn(text, groups[h].1)
  {
    if |groups| == 0 then default
    else if AnyIn(text, groups[0].1) then groups[0].0
    else
      var r := FirstGroup(groups[1..], text, default);
      assert forall g :: 1 <= g < |groups| ==> groups[1..][g - 1] == groups[g];
      r
  }

  /** The first group with a keyword in `text` decides, even when the default or a later group shares its intent. */
  lemma {:induction false} FirstGroupFirstHit(groups: seq<(Intent, seq<string>)>, text: string, default: Intent, g: nat)
    requires g < |groups| && AnyIn(text, groups[g].1)
    requires forall h :: 0 <= h < g ==> !AnyIn(text, groups[h].1)
    ensures FirstGroup(groups, text, default) == groups[g].0
    decreases g
  {
    if g > 0 {
      assert !AnyIn(text, groups[0].1);
      assert groups[1..][g - 1] == groups[g];
      forall h | 0 <= h < g - 1 ensures !AnyIn(text, groups[1..][h].1) {
        assert groups[1..][h] == groups[h + 1];
      }
      FirstGroupFirstHit(groups[1..], text, default, g - 1);
    }
  }

  /** The keyword groups of `_detect_intent_heuristic`, in the order they are tried. */
  const KeywordGroups: seq<(Intent, seq<string>)> := [
    (DocParse, ["parse document", "extract from document", "process document", "parse",
                "extract metadata", ".docx", ".doc", "fintrac"]),
    (Ddl, ["create table", "ddl", "schema", "database design"]),
    (Data, ["test data", "synthetic data", "generate data", "sample data"]),
    (Both, ["ddl and data", "schema and data", "complete setup"]),
    (Lineage, ["lineage", "data flow", "trace", "upstream", "downstream"]),
    (Qa, ["what is", "explain", "how", "why", "describe", "?"]),
    (Search, ["search", "find", "lookup", "retrieve", "show me"])
  ]

  /**
   * `_detect_intent_heuristic`: the intent of the first keyword group with a
   * keyword in the lower-cased prompt, `ddl` when none has one.
   */
  function DetectIntent(prompt: string): (r: Intent)
    ensures (forall g :: 0 <= g < |KeywordGroups| ==> !AnyIn(Lower(prompt), KeywordGroups[g].1)) ==> r == Ddl
    ensures r == Ddl || exists g :: 0 <= g < |KeywordGroups| && r == KeywordGroups[g].0
                                   && AnyIn(Lower(prompt), KeywordGroups[g].1)
                                   && forall h :: 0 <= h < g ==> !AnyIn(Lower(prompt), KeywordGroups[h].1)
  {
    FirstGroup(KeywordGroups, Lower(prompt), Ddl)
  }

  /** The first group with a keyword in the prompt decides the intent, even when another group shares it. */
  lemma DetectIntentFirstHit(prompt: string, g: nat)
    requires g < |KeywordGroups| && AnyIn(Lower(prompt), KeywordGroups[g].1)
    requires forall h :: 0 <= h < g ==> !AnyIn(Lower(prompt), KeywordGroups[h].1)
    ensures DetectIntent(prompt) == KeywordGroups[g].0
  {
    FirstGroupFirstHit(KeywordGroups, Lower(prompt), Ddl, g);
  }

  /** A keyword that starts with an absent keyword is absent too. */
  lemma AbsentPrefixAbsent(text: string, long: string, short: string)
    requires StartsWith(long, short) && !Contains(text, short)
    ensures !Contains(text, long)
  {
    if Contains(text, long) {
      ContainsPrefixOf(text, long, |short|);
    }
  }

  /**
   * The `both` keywords "ddl and data" and "schema and data" start with `ddl`
   * and `schema`, which the earlier `ddl` group catches: only
   * "complete setup" can yield `both`.
   */
  lemma BothOnlyFromCompleteSetup(prompt: string)
    requires DetectIntent(prompt) == Both
    ensures Contains(Lower(prompt), "complete setup")
  {
    var text := Lower(prompt);
    var ddl := KeywordGroups[1].1;
    var both := KeywordGroups[3].1;
    assert !AnyIn(text, ddl) && AnyIn(text, both);
    assert !Contains(text, ddl[1]) && !Contains(text, ddl[2]);
    AbsentPrefixAbsent(text, both[0], ddl[1]);
    AbsentPrefixAbsent(text, both[1], ddl[2]);
    assert Contains(text, both[2]);
  }

  /** "show me" contains "how", which the earlier `qa` group catches: "show me" never yields `search`. */
  lemma ShowMeNeverSearches(prompt: string)
    requires Contains(Lower(prompt), "show me")
    ensures DetectIntent(prompt) != Search
  {
    var text := Lower(prompt);
    assert OccursAt("show me", "how", 1);
    ContainsWitness("show me", "how", 1);
    ContainsTransitive(text, "show me", "how");
    assert KeywordGroups[5].1[2] == "how";
    assert AnyIn(text, KeywordGroups[5].1);
  }

  /** "show me" is a `qa` prompt whenever no earlier group has a keyword in it. */
  lemma ShowMeIsQa(prompt: string)
    requires Contains(Lower(prompt), "show me")
    requires forall g :: 0 <= g < 5 ==> !AnyIn(Lower(prompt), KeywordGroups[g].1)
    ensures DetectIntent(prompt) == Qa
  {
    var text := Lower(prompt);
    assert OccursAt("show me", "how", 1);
    ContainsWitness("show me", "how", 1);
    ContainsTransitive(text, "show me", "how");
    assert KeywordGroups[5].1[2] == "how";
    assert AnyIn(text, KeywordGroups[5].1);
    DetectIntentFirstHit(prompt, 5);
  }

  /**
   * "ddl and data" and "schema and data" yield `ddl`, not `both`, whenever
   * no document-parsing keyword is present.
   */
  lemma DdlAndDataIsDdl(prompt: string)
    requires Contains(Lower(prompt), "ddl and data") || Contains(Lower(prompt), "schema and data")
    requires !AnyIn(Lower(prompt), KeywordGroups[0].1)
    ensures DetectIntent(prompt) == Ddl
  {
    var text := Lower(prompt);
    var ddl := KeywordGroups[1].1;
    if Contains(text, "ddl and data") {
      ContainsPrefixOf(text, "ddl and data", 3);
      assert "ddl and data"[..3] == ddl[1];
      assert AnyIn(text, ddl);
    } else {
      ContainsPrefixOf(text, "schema and data", 6);
      assert "schema and data"[..6] == ddl[2];
      assert AnyIn(text, ddl);
    }
  }

  /** The next node `should_continue` routes to. */
  datatype Route = End | HumanApproval | SupervisorNode | DocParserAgent | DdlAgent
                 | DataAgent | QaAgent | LineageAgent

  /** The routing-relevant part of the shared state; flags hold Python truthiness. */
  datatype AgentState = AgentState(
    userPrompt: string,
    feedback: Option<string>,
    iterationCount: int,
    intent: Option<string>,
    approved: bool,
    shouldEnd: bool,
    awaitingHumanApproval: bool)

  /** Python truthiness of an optional string. */
  predicate Truthy(o: Option<string>) {
    o.Some? && |o.value| > 0
  }

  /** The agent for a stored intent; a missing or unknown intent goes to the DDL agent. */
  function AgentFor(intent: Option<string>): Route {
    var name := if intent.Some? then intent.value else "ddl";
    if name == "doc_parse" then DocParserAgent
    else if name == "ddl" then DdlAgent
    else if name == "data" then DataAgent
    else if name == "qa" then QaAgent
    else if name == "lineage" then LineageAgent
    else if name == "both" then DdlAgent
    else if name == "search" then QaAgent
    else DdlAgent
  }

  /** Which agent serves each detected intent. */
  function AgentOf(i: Intent): Route {
    match i
    case DocParse => DocParserAgent
    case Ddl | Both => DdlAgent
    case Data => DataAgent
    case Qa | Search => QaAgent
    case Lineage => LineageAgent
  }

  /** Every intent the heuristic stores routes to the agent that serves it. */
  lemma AgentForStoredIntent(i: Intent)
    ensures AgentFor(Some(IntentName(i))) == AgentOf(i)
  {
    match i
    case DocParse =>
    case Ddl =>
    case Data =>
      assert IntentName(Data) != "doc_parse" && IntentName(Data) != "ddl";
    case Both =>
      assert IntentName(Both) !in ["doc_parse", "ddl", "data", "qa", "lineage"];
    case Lineage =>
      assert IntentName(Lineage) !in ["doc_parse", "ddl", "data", "qa"];
    case Qa =>
      assert IntentName(Qa) !in ["doc_parse", "ddl", "data"];
    case Search =>
      assert IntentName(Search) !in ["doc_parse", "ddl", "data", "qa", "lineage", "both"];
  }

  /**
   * `should_continue`: end when approved or told to end, then wait for a
   * human, then stop after too many iterations, then retry on feedback, and
   * otherwise go to the agent for the intent.
   */
  function ShouldContinue(s: AgentState): (r: Route)
    ensures r == End <==> s.shouldEnd || s.approved
                          || (!s.awaitingHumanApproval && s.iterationCount >= MaxFeedbackIterations)
    ensures r == HumanApproval <==> !s.shouldEnd && !s.approved && s.awaitingHumanApproval
    ensures r == SupervisorNode <==> !s.shouldEnd && !s.approved && !s.awaitingHumanApproval
                                     && s.iterationCount < MaxFeedbackIterations && Truthy(s.feedback)
    ensures r !in {End, HumanApproval, SupervisorNode} ==> r == AgentFor(s.intent)
  {
    if s.shouldEnd || s.approved then End
    else if s.awaitingHumanApproval then HumanApproval
    else if s.iterationCount >= MaxFeedbackIterations then End
    else if Truthy(s.feedback) && !s.approved then SupervisorNode
    else AgentFor(s.intent)
  }

  /** The shared state dictionary the graph nodes update in place. */
  class StateDict {
    var userPrompt: string
    var feedback: Option<string>
    var iterationCount: int
    var intent: Option<string>
    var approved: bool
    var shouldEnd: bool
    var awaitingHumanApproval: bool

    constructor(s: AgentState)
      ensures Snapshot() == s
    {
      userPrompt := s.userPrompt;
      feedback := s.feedback;
      iterationCount := s.iterationCount;
      intent := s.intent;
      approved := s.approved;
      shouldEnd := s.shouldEnd;
      awaitingHumanApproval := s.awaitingHumanApproval;
    }

    function Snapshot(): AgentState
      reads this
    {
      AgentState(userPrompt, feedback, iterationCount, intent, approved, shouldEnd, awaitingHumanApproval)
    }

    /** `supervisor_node`: writes the detected intent and nothing else. */
    method SupervisorStep()
      modifies this
      ensures Snapshot() == old(Snapshot()).(intent := Some(IntentName(DetectIntent(old(userPrompt)))))
    {
      intent := Some(IntentName(DetectIntent(userPrompt)));
    }
  }

  /**
   * After the supervisor step, a state that is not ending, not waiting and
   * has no feedback is routed to the agent serving the detected intent.
   */
  lemma SupervisorThenRoute(s: AgentState)
    requires !s.shouldEnd && !s.approved && !s.awaitingHumanApproval
    requires s.iterationCount < MaxFeedbackIterations && !Truthy(s.feedback)
    ensures ShouldContinue(s.(intent := Some(IntentName(DetectIntent(s.userPrompt)))))
            == AgentOf(DetectIntent(s.userPrompt))
  {
    AgentForStoredIntent(DetectIntent(s.userPrompt));
  }
}
