// The document-parser agent: reading the document and bucket named in a
// prompt, and following the five tasks of the parsing pipeline run as its
// task instances are polled.

module DocParserAgent {
  import opened Wrappers
  import opened Strings
  import opened Scans

  /** The one document the agent knows by name. */
  const FintracDocument := "Fintrac_Swift_Source_Extract_Specification_v4_plus_appendix.docx"
  const DefaultBucket := "ses-v1"

  /** What `_extract_document_info` reads from a prompt; None fields are keys left unset. */
  datatype DocInfo = DocInfo(documentName: Option<string>, s3Bucket: string, command: string,
                             s3Key: Option<string>)

  /**
   * The group of `bucket\s+(\S+)` matched at index `p`: "bucket", at least one
   * whitespace character (all of them), then the whole run of non-whitespace.
   */
  function BucketAt(s: string, p: nat): (r: Option<string>)
    requires p <= |s|
    ensures r.Some? ==> |r.value| > 0 && NoSpace(r.value) && Contains(s, r.value)
  {
    if StartsWith(s[p..], "bucket") && p + 6 < |s| && IsSpace(s[p + 6]) then
      var q := p + 6 + SpaceRun(s, p + 6);
      if q < |s| then
        var name := s[q..q + NonSpaceRun(s, q)];
        ContainsWitness(s, name, q);
        Some(name)
      else None
    else None
  }

  /** `re.search(r'bucket\s+(\S+)', s)` from index `p`: the group of the leftmost match. */
  function SearchBucket(s: string, p: nat): (r: Option<string>)
    requires p <= |s|
    ensures r.Some? ==> |r.value| > 0 && NoSpace(r.value) && Contains(s, r.value)
    decreases |s| - p
  {
    match BucketAt(s, p)
    case Some(name) => Some(name)
    case None => if p == |s| then None else SearchBucket(s, p + 1)
  }

  /** `_extract_document_info` */
  function ExtractDocumentInfo(prompt: string): (r: DocInfo)
    ensures r.command == "parse_document"
    ensures r.documentName.Some? <==> Contains(Lower(prompt), "fintrac")
    ensures r.documentName.Some? ==> r.documentName == Some(FintracDocument)
                                     && r.s3Key == Some("input/" + FintracDocument)
    ensures r.documentName.None? ==> r.s3Key.None?
    ensures r.s3Bucket == DefaultBucket || (|r.s3Bucket| > 0 && NoSpace(r.s3Bucket))
  {
    var lower := Lower(prompt);
    var fintrac := Contains(lower, "fintrac");
    var bucket :=
      if Contains(lower, "bucket") then
        match SearchBucket(lower, 0)
        case Some(name) => name
        case None => DefaultBucket
      else DefaultBucket;
    DocInfo(if fintrac then Some(FintracDocument) else None, bucket, "parse_document",
            if fintrac then Some("input/" + FintracDocument) else None)
  }

  /** The leftmost index at or after `p` where the pattern matches decides the search. */
  lemma {:induction false} SearchBucketLeftmost(s: string, p: nat, i: nat)
    requires p <= i <= |s| && BucketAt(s, i).Some?
    requires forall j :: p <= j < i ==> BucketAt(s, j).None?
    ensures SearchBucket(s, p) == BucketAt(s, i)
    decreases i - p
  {
    if p < i {
      SearchBucketLeftmost(s, p + 1, i);
    }
  }

  /** The search finds nothing exactly when the pattern matches at no index from `p` on. */
  lemma {:induction false} SearchBucketNone(s: string, p: nat)
    requires p <= |s|
    ensures SearchBucket(s, p).None? <==> forall i :: p <= i <= |s| ==> BucketAt(s, i).None?
    decreases |s| - p
  {
    if BucketAt(s, p).None? && p < |s| {
      SearchBucketNone(s, p + 1);
    }
  }

  /** A match of the pattern at `i` means the text contains "bucket". */
  lemma BucketAtContainsWord(s: string, i: nat)
    requires i <= |s| && BucketAt(s, i).Some?
    ensures Contains(s, "bucket")
  {
    assert s[i..][..6] == s[i..i + 6];
    ContainsWitness(s, "bucket", i);
  }

  /** The bucket is the group of the leftmost `bucket\s+(\S+)` match in the lower-cased prompt. */
  lemma ExtractedBucketIsLeftmost(prompt: string, i: nat)
    requires i <= |Lower(prompt)| && BucketAt(Lower(prompt), i).Some?
    requires forall j :: 0 <= j < i ==> BucketAt(Lower(prompt), j).None?
    ensures ExtractDocumentInfo(prompt).s3Bucket == BucketAt(Lower(prompt), i).value
  {
    BucketAtContainsWord(Lower(prompt), i);
    SearchBucketLeftmost(Lower(prompt), 0, i);
  }

  /** Without any match the bucket stays "ses-v1". */
  lemma UnmatchedBucketIsDefault(prompt: string)
    requires forall i :: 0 <= i <= |Lower(prompt)| ==> BucketAt(Lower(prompt), i).None?
    ensures ExtractDocumentInfo(prompt).s3Bucket == DefaultBucket
  {
    SearchBucketNone(Lower(prompt), 0);
  }

  /** A slice of text without upper-case letters has none either. */
  lemma NoUpperInSlice(s: string, i: nat, j: nat)
    requires NoUpper(s) && i <= j <= |s|
    ensures NoUpper(s[i..j])
  {
    assert forall k :: 0 <= k < j - i ==> s[i..j][k] == s[i + k];
  }

  /** A match found by the search is a slice of the searched text. */
  lemma {:induction false} SearchBucketIsSlice(s: string, p: nat)
    requires p <= |s|
    ensures SearchBucket(s, p).Some? ==> exists i, j :: 0 <= i <= j <= |s| && SearchBucket(s, p).value == s[i..j]
    decreases |s| - p
  {
    if BucketAt(s, p).None? && p < |s| {
      SearchBucketIsSlice(s, p + 1);
    }
  }

  /** The prompt is lower-cased before the search, so a bucket read from it is lower-case. */
  lemma BucketIsLowerCase(prompt: string)
    ensures NoUpper(ExtractDocumentInfo(prompt).s3Bucket)
  {
    var lower := Lower(prompt);
    LowerHasNoUpper(prompt);
    SearchBucketIsSlice(lower, 0);
    if Contains(lower, "bucket") && SearchBucket(lower, 0).Some? {
      var i, j :| 0 <= i <= j <= |lower| && SearchBucket(lower, 0).value == lower[i..j];
      NoUpperInSlice(lower, i, j);
    }
  }

  /** The group read at the start of `"bucket " + name + rest`. */
  lemma BucketAtStart(name: string, rest: string)
    requires |name| > 0 && NoSpace(name) && (rest == [] || IsSpace(rest[0]))
    ensures BucketAt("bucket " + name + rest, 0) == Some(name)
  {
    var s := "bucket " + name + rest;
    assert s[0..][..6] == "bucket";
    assert s[7] == name[0];
    assert SpaceRun(s, 7) == 0;
    NonSpaceRunExact(s, 7, |name|);
    assert s[7..7 + |name|] == name;
  }

  /** A prompt that starts by naming a bucket yields that bucket, lower-cased. */
  lemma NamedBucketIsRead(name: string, rest: string)
    requires |name| > 0 && NoSpace(name) && (rest == [] || IsSpace(rest[0]))
    ensures ExtractDocumentInfo("bucket " + name + rest).s3Bucket == Lower(name)
  {
    var prompt := "bucket " + name + rest;
    var lname, lrest := Lower(name), Lower(rest);
    var lower := Lower(prompt);
    assert lower == "bucket " + lname + lrest by {
      LowerAppend("bucket " + name, rest);
      LowerAppend("bucket ", name);
      assert Lower("bucket ") == "bucket ";
    }
    assert BucketAt(lower, 0) == Some(lname) by {
      assert NoSpace(lname) by {
        forall k | 0 <= k < |lname| ensures !IsSpace(lname[k]) {
          assert lname[k] == LowerChar(name[k]);
        }
      }
      assert lrest == [] || IsSpace(lrest[0]) by {
        if rest != [] {
          assert lrest[0] == LowerChar(rest[0]);
        }
      }
      BucketAtStart(lname, lrest);
    }
    assert Contains(lower, "bucket") by {
      assert lower[0..][..6] == "bucket";
      ContainsWitness(lower, "bucket", 0);
    }
  }

  /** The five tasks of the pipeline run, in order. */
  const TaskNames: seq<string> := [
    "task1_verify_endpoints",
    "task2_verify_s3_access",
    "task3_verify_containers",
    "task4_fetch_document",
    "task5_parse_document"
  ]

  const Pending := "pending"
  const Completed := "\U{2713} completed"
  const FailedMark := "\U{2717} failed"
  const Running := "\U{27f3} running"

  /**
   * A task instance as the pipeline reports it; a missing `state` key reads
   * as "pending" and a null state as None.
   */
  datatype TaskInstance = TaskInstance(taskId: string, state: Option<string>)

  /** The first reported instance of a task. */
  function InstanceOf(instances: seq<TaskInstance>, name: string): (r: Option<TaskInstance>)
    ensures r.Some? ==> r.value in instances && r.value.taskId == name
    ensures r.None? <==> forall k :: 0 <= k < |instances| ==> instances[k].taskId != name
    ensures forall k :: 0 <= k < |instances| && instances[k].taskId == name
                        && (forall j :: 0 <= j < k ==> instances[j].taskId != name)
                        ==> r == Some(instances[k])
  {
    match FirstWhere(instances, (t: TaskInstance) => t.taskId == name)
    case Some(k) => Some(instances[k])
    case None => None
  }

  /** Each task's first reported instance. */
  function Found(names: seq<string>, instances: seq<TaskInstance>): (r: seq<Option<TaskInstance>>)
    ensures |r| == |names| && forall i :: 0 <= i < |names| ==> r[i] == InstanceOf(instances, names[i])
  {
    seq(|names|, i requires 0 <= i < |names| => InstanceOf(instances, names[i]))
  }

  /** Whether a task's instance reports failure. */
  predicate IsFailure(inst: Option<TaskInstance>) {
    inst.Some? && inst.value.state == Some("failed")
  }

  /** The status a task shows after a poll whose instance for it did not fail. */
  function NextStatus(status: string, inst: Option<TaskInstance>): string {
    match inst
    case None => status
    case Some(t) =>
      if t.state == Some("success") then Completed
      else if t.state == Some("running") || t.state == Some("queued") then Running
      else status
  }

  datatype Step = Continue(statuses: seq<string>) | Failure(statuses: seq<string>)

  /**
   * One poll's pass over the tasks from index `i`, given each task's
   * instance, stopping at the first failed one.
   */
  function StepFrom(statuses: seq<string>, found: seq<Option<TaskInstance>>, i: nat): (r: Step)
    requires |statuses| == |found| && i <= |found|
    ensures |r.statuses| == |statuses|
    decreases |found| - i
  {
    if i == |found| then Continue(statuses)
    else if IsFailure(found[i]) then Failure(statuses[i := FailedMark])
    else StepFrom(statuses[i := NextStatus(statuses[i], found[i])], found, i + 1)
  }

  /** A pass leaves the tasks before `i` alone. */
  lemma {:induction false} StepFromKeepsEarlier(statuses: seq<string>, found: seq<Option<TaskInstance>>, i: nat)
    requires |statuses| == |found| && i <= |found|
    ensures forall j :: 0 <= j < i ==> StepFrom(statuses, found, i).statuses[j] == statuses[j]
    decreases |found| - i
  {
    if i < |found| && !IsFailure(found[i]) {
      StepFromKeepsEarlier(statuses[i := NextStatus(statuses[i], found[i])], found, i + 1);
    }
  }

  /** A pass that does not fail moves every task from `i` on by its instance, none of which failed. */
  lemma {:induction false} StepFromContinue(statuses: seq<string>, found: seq<Option<TaskInstance>>, i: nat)
    requires |statuses| == |found| && i <= |found|
    requires StepFrom(statuses, found, i).Continue?
    ensures forall j :: i <= j < |found| ==>
              !IsFailure(found[j]) && StepFrom(statuses, found, i).statuses[j] == NextStatus(statuses[j], found[j])
    decreases |found| - i
  {
    if i < |found| {
      var next := statuses[i := NextStatus(statuses[i], found[i])];
      StepFromContinue(next, found, i + 1);
      StepFromKeepsEarlier(next, found, i + 1);
    }
  }

  /**
   * A pass that fails stops at the first task whose instance failed: the
   * tasks before it moved by their instances, it shows "failed", and the
   * later ones are untouched.
   */
  lemma {:induction false} StepFromFailure(statuses: seq<string>, found: seq<Option<TaskInstance>>, i: nat)
    returns (k: nat)
    requires |statuses| == |found| && i <= |found|
    requires StepFrom(statuses, found, i).Failure?
    ensures var r := StepFrom(statuses, found, i).statuses;
            i <= k < |found| && IsFailure(found[k]) && r[k] == FailedMark
            && (forall j :: i <= j < k ==> !IsFailure(found[j]) && r[j] == NextStatus(statuses[j], found[j]))
            && (forall j :: k < j < |found| ==> r[j] == statuses[j])
    decreases |found| - i
  {
    if IsFailure(found[i]) {
      k := i;
    } else {
      var next := statuses[i := NextStatus(statuses[i], found[i])];
      k := StepFromFailure(next, found, i + 1);
      StepFromKeepsEarlier(next, found, i + 1);
    }
  }

  /** Every task shows "completed". */
  predicate AllCompleted(statuses: seq<string>) {
    forall j :: 0 <= j < |statuses| ==> statuses[j] == Completed
  }

  /** No task shows "failed". */
  predicate NoneFailed(statuses: seq<string>) {
    forall j :: 0 <= j < |statuses| ==> statuses[j] != FailedMark
  }

  /** The statuses `n` tasks start with. */
  function InitialStatuses(n: nat): (r: seq<string>)
    ensures |r| == n && forall j :: 0 <= j < n ==> r[j] == Pending
  {
    seq(n, _ => Pending)
  }

  /** The task statuses and outcome of polling from poll `k` to `maxPolls`. */
  function Polls(names: seq<string>, statuses: seq<string>, respond: nat -> Option<seq<TaskInstance>>,
                 k: nat, maxPolls: nat): (r: (seq<string>, string))
    requires |statuses| == |names|
    ensures r.1 == "success" || r.1 == "failed" || r.1 == "timeout"
    ensures r.1 == "success" ==> AllCompleted(r.0)
    ensures |r.0| == |names|
    decreases maxPolls - k
  {
    if k >= maxPolls then (statuses, "timeout")
    else match respond(k)
      case None => Polls(names, statuses, respond, k + 1, maxPolls)
      case Some(instances) =>
        match StepFrom(statuses, Found(names, instances), 0)
        case Failure(s) => (s, "failed")
        case Continue(s) =>
          if AllCompleted(s) then (s, "success") else Polls(names, s, respond, k + 1, maxPolls)
  }

  /** A pass that does not fail shows no failed task if none was shown before. */
  lemma ContinueNoneFailed(statuses: seq<string>, found: seq<Option<TaskInstance>>)
    requires |statuses| == |found| && NoneFailed(statuses)
    requires StepFrom(statuses, found, 0).Continue?
    ensures NoneFailed(StepFrom(statuses, found, 0).statuses)
  {
    StepFromContinue(statuses, found, 0);
  }

  /**
   * Polling never shows a failed task unless it stops on one: the outcome is
   * "failed" exactly when some task shows "failed".
   */
  lemma {:induction false} FailedOnlyOnFailure(names: seq<string>, statuses: seq<string>,
                                               respond: nat -> Option<seq<TaskInstance>>, k: nat, maxPolls: nat)
    requires |statuses| == |names| && NoneFailed(statuses)
    ensures var r := Polls(names, statuses, respond, k, maxPolls);
            r.1 == "failed" <==> !NoneFailed(r.0)
    decreases maxPolls - k
  {
    if k < maxPolls {
      match respond(k)
      case None =>
        FailedOnlyOnFailure(names, statuses, respond, k + 1, maxPolls);
      case Some(instances) =>
        var found := Found(names, instances);
        match StepFrom(statuses, found, 0)
        case Failure(s) =>
          var k := StepFromFailure(statuses, found, 0);
        case Continue(s) =>
          ContinueNoneFailed(statuses, found);
          if !AllCompleted(s) {
            FailedOnlyOnFailure(names, s, respond, k + 1, maxPolls);
          }
    }
  }

  /** One poll's update of the task statuses in place; true when a task failed. */
  method PollStep(names: seq<string>, statuses: array<string>, instances: seq<TaskInstance>)
    returns (failed: bool)
    requires statuses.Length == |names|
    modifies statuses
    ensures var r := StepFrom(old(statuses[..]), Found(names, instances), 0);
            failed == r.Failure? && statuses[..] == r.statuses
  {
    ghost var found := Found(names, instances);
    for i := 0 to |names|
      invariant StepFrom(statuses[..], found, i) == StepFrom(old(statuses[..]), found, 0)
    {
      var inst := InstanceOf(instances, names[i]);
      ghost var before := statuses[..];
      if inst.Some? {
        var state := inst.value.state;
        if state == Some("success") {
          statuses[i] := Completed;
        } else if state == Some("failed") {
          statuses[i] := FailedMark;
          return true;
        } else if state == Some("running") || state == Some("queued") {
          statuses[i] := Running;
        }
      }
      assert statuses[..] == before[i := NextStatus(before[i], inst)];
    }
    return false;
  }

  /** Whether every status in the array shows "completed". */
  method AllDone(statuses: array<string>) returns (done: bool)
    ensures done == AllCompleted(statuses[..])
  {
    done := true;
    for j := 0 to statuses.Length
      invariant done == forall i :: 0 <= i < j ==> statuses[i] == Completed
    {
      if statuses[j] != Completed {
        done := false;
      }
    }
  }

  /** `_poll_dag_completion` for the tasks `names`, the answer to each poll given by `respond` (None: not 200). */
  method PollTasks(names: seq<string>, respond: nat -> Option<seq<TaskInstance>>, maxPolls: int)
    returns (statuses: seq<string>, outcome: string)
    ensures (statuses, outcome) ==
            Polls(names, InitialStatuses(|names|), respond, 0, if maxPolls > 0 then maxPolls else 0)
  {
    var polls: nat := if maxPolls > 0 then maxPolls else 0;
    var taskStates := new string[|names|](_ => Pending);
    assert taskStates[..] == InitialStatuses(|names|);
    for k := 0 to polls
      invariant Polls(names, taskStates[..], respond, k, polls)
                == Polls(names, InitialStatuses(|names|), respond, 0, polls)
    {
      var response := respond(k);
      if response.Some? {
        var failed := PollStep(names, taskStates, response.value);
        if failed {
          return taskStates[..], "failed";
        }
        var allDone := AllDone(taskStates);
        if allDone {
          return taskStates[..], "success";
        }
      }
    }
    return taskStates[..], "timeout";
  }

  /** `_poll_dag_completion` over the five pipeline tasks. */
  method PollDagCompletion(respond: nat -> Option<seq<TaskInstance>>, maxPolls: int)
    returns (statuses: seq<string>, outcome: string)
    ensures (statuses, outcome) ==
            Polls(TaskNames, InitialStatuses(5), respond, 0, if maxPolls > 0 then maxPolls else 0)
  {
    statuses, outcome := PollTasks(TaskNames, respond, maxPolls);
  }
}
