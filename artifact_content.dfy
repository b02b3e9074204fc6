/**
 * The minimum-content check of bmad/scripts/audit_workflow.py: some artifacts must
 * mention fixed section markers, chosen by artifact key and file name.
 */
module ArtifactContent {
  import opened Wrappers
  import opened Findings

  const CONTENT_INCOMPLETE := "ARTIFACT_CONTENT_INCOMPLETE"

  predicate EndsWith(s: string, suffix: string) {
    |suffix| <= |s| && s[|s| - |suffix|..] == suffix
  }

  /** Python's `token in content` on strings. */
  predicate Contains(content: string, token: string) {
    exists i | 0 <= i <= |content| - |token| :: OccursAt(content, token, i)
  }

  predicate OccursAt(content: string, token: string, i: int) {
    0 <= i && i + |token| <= |content| && content[i..i + |token|] == token
  }

  predicate GateReport(key: string, filename: string) {
    EndsWith(key, "_gate_report") || EndsWith(filename, "-gate-report.md")
  }

  /** `required_tokens_for_artifact`: the markers, in the order the table adds them. */
  function RequiredTokens(key: string, filename: string): seq<string> {
    (if GateReport(key, filename) then ["Gate Status", "Blockers"] else [])
    + (if key == "qa_test_plan" then ["Summary", "Smoke Set", "Regression", "Coverage by Task"] else [])
    + (if key == "qa_test_report" then ["Verification Method", "Overall Status"] else [])
    + (if key == "architecture_review_gate_report" then ["Review Scope", "Gate Status"] else [])
    + (if key == "milestone_lock_report" then ["Milestone ID", "Locked Keys", "Lock File"] else [])
  }

  /** Only gate reports and the four named keys carry markers. */
  lemma NoTokensIff(key: string, filename: string)
    ensures RequiredTokens(key, filename) == [] <==>
      !GateReport(key, filename) && key !in {"qa_test_plan", "qa_test_report", "architecture_review_gate_report",
                                              "milestone_lock_report"}
  {
    if key == "architecture_review_gate_report" {
      assert GateReport(key, filename) by {
        assert key[|key| - |"_gate_report"|..] == "_gate_report";
      }
    }
  }

  /** The architecture review gate report is a gate report too, so "Gate Status" is required twice. */
  lemma ArchitectureReviewTokens(filename: string)
    ensures RequiredTokens("architecture_review_gate_report", filename) ==
      ["Gate Status", "Blockers", "Review Scope", "Gate Status"]
  {
    var key := "architecture_review_gate_report";
    assert key[|key| - |"_gate_report"|..] == "_gate_report";
  }

  /** The QA plan and report markers, for file names that are not gate reports. */
  lemma QaTokens(filename: string)
    requires !EndsWith(filename, "-gate-report.md")
    ensures RequiredTokens("qa_test_plan", filename) == ["Summary", "Smoke Set", "Regression", "Coverage by Task"]
    ensures RequiredTokens("qa_test_report", filename) == ["Verification Method", "Overall Status"]
  {
    var plan := "qa_test_plan";
    var report := "qa_test_report";
    assert plan[|plan| - |"_gate_report"|..] != "_gate_report";
    assert report[|report| - |"_gate_report"|..] != "_gate_report";
  }

  /** The required markers the content does not contain, in order. */
  function MissingTokens(tokens: seq<string>, content: string): (r: seq<string>)
    ensures forall t :: t in r <==> t in tokens && !Contains(content, t)
    ensures |r| <= |tokens|
  {
    if tokens == [] then []
    else (if Contains(content, tokens[0]) then [] else [tokens[0]]) + MissingTokens(tokens[1..], content)
  }

  /** `", ".join(xs)`. */
  function JoinComma(xs: seq<string>): string {
    if xs == [] then "" else if |xs| == 1 then xs[0] else xs[0] + ", " + JoinComma(xs[1..])
  }

  /**
   * `check_artifact_minimum_content` on the decoded text of an existing, non-empty artifact:
   * one ERROR naming the missing markers, exactly when some required marker is absent.
   */
  function CheckMinimumContent(content: string, key: string, filename: string, path: string): (r: seq<Finding>)
    ensures |r| <= 1
    ensures r != [] <==> exists t :: t in RequiredTokens(key, filename) && !Contains(content, t)
    ensures RequiredTokens(key, filename) == [] ==> r == []
    ensures forall i :: 0 <= i < |r| ==> r[i].severity == Error && r[i].code == CONTENT_INCOMPLETE
  {
    var required := RequiredTokens(key, filename);
    if required == [] then []
    else
      var missing := MissingTokens(required, content);
      if missing == [] then []
      else
        assert missing[0] in missing;
        [Finding(Error, CONTENT_INCOMPLETE, filename + ": " + JoinComma(missing), Some(path))]
  }

  /** A gate report that mentions both gate markers passes the check. */
  lemma GateReportComplete(content: string, key: string, filename: string, path: string)
    requires GateReport(key, filename)
    requires key !in {"qa_test_plan", "qa_test_report", "architecture_review_gate_report", "milestone_lock_report"}
    ensures CheckMinimumContent(content, key, filename, path) == [] <==>
      Contains(content, "Gate Status") && Contains(content, "Blockers")
  {
    var tokens := RequiredTokens(key, filename);
    assert tokens == ["Gate Status", "Blockers"];
    if !Contains(content, "Gate Status") {
      assert tokens[0] == "Gate Status";
    } else if !Contains(content, "Blockers") {
      assert tokens[1] == "Blockers";
    } else {
      assert forall t :: t in tokens ==> t == "Gate Status" || t == "Blockers";
    }
  }
}
