/** The overall status of a build, derived from the global counters of its summary.
    The rule appears twice in the application: once when the build list fills in a
    missing status, once when an upload stores it. */
module BuildStatus {
  import opened JsonValue
  import opened Report
  import StatusResolver
  import opened Summarizer

  datatype Verdict = Failed | Skipped | Passed {
    /** The string stored in a build's metadata. */
    function Name(): string {
      match this
      case Failed => "failed"
      case Skipped => "skipped"
      case Passed => "passed"
    }
  }

  /** The rule as the build list writes it: failed first, then skipped only when
      nothing passed, otherwise passed. */
  function OverallStatus(summary: Summary): (r: Verdict)
    ensures r == Failed <==> summary.failed > 0
    ensures r == Skipped <==> summary.failed == 0 && summary.skipped > 0 && summary.passed == 0
    ensures r == Passed <==> summary.failed == 0 && (summary.skipped == 0 || summary.passed > 0)
  {
    if summary.failed > 0 then Failed
    else if summary.skipped > 0 && summary.passed == 0 then Skipped
    else Passed
  }

  /** The rule as the upload handler writes it: start from "passed" and overwrite. The
      string it stores is the name of the verdict the other copy gives, on every summary. */
  method UploadStatus(summary: Summary) returns (status: string)
    ensures status == OverallStatus(summary).Name()
  {
    status := "passed";
    if summary.failed > 0 {
      status := "failed";
    } else if summary.skipped > 0 && summary.passed == 0 {
      status := "skipped";
    }
  }

  /** Distinct verdicts are stored as distinct strings, so the stored string determines
      the verdict. */
  lemma VerdictNameInjective(a: Verdict, b: Verdict)
    ensures a.Name() == b.Name() ==> a == b
  {
  }

  /** The overall status of a report in terms of its scenarios and steps: failed when
      any step anywhere failed; skipped when nothing failed, there is at least one
      scenario and none of them passed (scenarios without steps count as skipped);
      passed otherwise, including for a report without scenarios. */
  lemma ReportVerdict(report: seq<Feature>)
    ensures OverallStatus(Tally(report)) == Failed <==>
      exists i, j, k :: 0 <= i < |report| && 0 <= j < |report[i].elements| && 0 <= k < |report[i].elements[j].steps| &&
        report[i].elements[j].steps[k].status == JString("failed")
    ensures OverallStatus(Tally(report)) == Skipped <==>
      (exists i :: 0 <= i < |report| && report[i].elements != []) &&
      forall i, j :: 0 <= i < |report| && 0 <= j < |report[i].elements| ==>
        StatusOf(report[i].elements[j]) != StatusResolver.Failed && StatusOf(report[i].elements[j]) != StatusResolver.Passed
  {
    ScenariosWithPositive(report, StatusResolver.Failed);
    ScenariosWithPositive(report, StatusResolver.Passed);
    ScenariosPositive(report);
    ScenariosPartition(report);
    forall i, j | 0 <= i < |report| && 0 <= j < |report[i].elements|
      ensures StatusOf(report[i].elements[j]) == StatusResolver.Failed <==>
        exists k :: 0 <= k < |report[i].elements[j].steps| && report[i].elements[j].steps[k].status == JString("failed")
    {
      var steps := report[i].elements[j].steps;
      assert forall k :: 0 <= k < |steps| ==> Statuses(steps)[k] == steps[k].status;
    }
  }
}
