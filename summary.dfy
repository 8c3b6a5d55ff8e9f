/** The report summariser: one pass over features, their scenarios and their steps,
    counting scenarios by status and building the normalised feature list that the
    report page shows. */
module Summarizer {
  import opened Wrappers
  import opened JsonValue
  import opened StatusResolver
  import opened Report

  /** The global counters of a summary. */
  datatype Summary = Summary(features: nat, scenarios: nat, passed: nat, failed: nat, skipped: nat, steps: nat)

  /** One normalised scenario: its name, the name of its resolved status and its raw
      step objects. */
  datatype ScenarioRecord = ScenarioRecord(name: Json, status: string, steps: seq<Json>)

  /** One normalised feature. */
  datatype FeatureRecord = FeatureRecord(name: Json, description: Json, tags: seq<Json>, scenarios: seq<ScenarioRecord>)

  /** The statuses of a scenario's steps, in order. */
  function Statuses(steps: seq<Step>): seq<Json> {
    seq(|steps|, k requires 0 <= k < |steps| => steps[k].status)
  }

  /** `_scenario_status(steps)` for a parsed element: unknown exactly for an element
      without steps, failed exactly when one of its steps failed. */
  function StatusOf(e: Element): (r: Status)
    ensures r == Unknown <==> e.steps == []
    ensures r == Failed <==> exists k :: 0 <= k < |e.steps| && e.steps[k].status == JString("failed")
  {
    var statuses := Statuses(e.steps);
    assert forall k :: 0 <= k < |e.steps| ==> statuses[k] == e.steps[k].status;
    Resolve(statuses)
  }

  // ---------------------------------------------------------------------------
  // Reference counts, each a plain sum over the report.

  /** Number of steps over a list of elements. */
  function ElementSteps(es: seq<Element>): nat {
    if es == [] then 0 else ElementSteps(es[..|es| - 1]) + |es[|es| - 1].steps|
  }

  /** Number of elements that resolve to `s`. */
  function ElementsWith(es: seq<Element>, s: Status): nat {
    if es == [] then 0
    else ElementsWith(es[..|es| - 1], s) + (if StatusOf(es[|es| - 1]) == s then 1 else 0)
  }

  /** Number of scenarios over all features. */
  function Scenarios(report: seq<Feature>): nat {
    if report == [] then 0 else Scenarios(report[..|report| - 1]) + |report[|report| - 1].elements|
  }

  /** Number of steps over all scenarios of all features. */
  function Steps(report: seq<Feature>): nat {
    if report == [] then 0 else Steps(report[..|report| - 1]) + ElementSteps(report[|report| - 1].elements)
  }

  /** Number of scenarios, over all features, that resolve to `s`. */
  function ScenariosWith(report: seq<Feature>, s: Status): nat {
    if report == [] then 0
    else ScenariosWith(report[..|report| - 1], s) + ElementsWith(report[|report| - 1].elements, s)
  }

  /** Every element of a list resolves to exactly one status. */
  lemma {:induction false} ElementsPartition(es: seq<Element>)
    ensures ElementsWith(es, Passed) + ElementsWith(es, Failed) + ElementsWith(es, Skipped) + ElementsWith(es, Unknown) == |es|
  {
    if es != [] {
      ElementsPartition(es[..|es| - 1]);
    }
  }

  /** Every scenario of a report resolves to exactly one status. */
  lemma {:induction false} ScenariosPartition(report: seq<Feature>)
    ensures ScenariosWith(report, Passed) + ScenariosWith(report, Failed) + ScenariosWith(report, Skipped) + ScenariosWith(report, Unknown) == Scenarios(report)
  {
    if report != [] {
      ScenariosPartition(report[..|report| - 1]);
      ElementsPartition(report[|report| - 1].elements);
    }
  }

  /** The summary the summariser must produce. A scenario that resolves to unknown
      (one without steps) falls into the skipped counter, so the three counters
      always add up to the number of scenarios. */
  function Tally(report: seq<Feature>): (s: Summary)
    ensures s.passed + s.failed + s.skipped == s.scenarios
    ensures s.skipped == ScenariosWith(report, Skipped) + ScenariosWith(report, Unknown)
  {
    ScenariosPartition(report);
    Summary(
      features := |report|,
      scenarios := Scenarios(report),
      passed := ScenariosWith(report, Passed),
      failed := ScenariosWith(report, Failed),
      skipped := ScenariosWith(report, Skipped) + ScenariosWith(report, Unknown),
      steps := Steps(report))
  }

  /** Some element of a list resolves to `s` exactly when the count for `s` is positive. */
  lemma {:induction false} ElementsWithPositive(es: seq<Element>, s: Status)
    ensures ElementsWith(es, s) > 0 <==> exists j :: 0 <= j < |es| && StatusOf(es[j]) == s
  {
    if es != [] {
      var init := es[..|es| - 1];
      ElementsWithPositive(init, s);
      assert forall j :: 0 <= j < |init| ==> init[j] == es[j];
    }
  }

  /** Some scenario of a report resolves to `s` exactly when the count for `s` is positive. */
  lemma {:induction false} ScenariosWithPositive(report: seq<Feature>, s: Status)
    ensures ScenariosWith(report, s) > 0 <==>
      exists i, j :: 0 <= i < |report| && 0 <= j < |report[i].elements| && StatusOf(report[i].elements[j]) == s
  {
    if report != [] {
      var init := report[..|report| - 1];
      var last := report[|report| - 1];
      ScenariosWithPositive(init, s);
      ElementsWithPositive(last.elements, s);
      assert forall i :: 0 <= i < |init| ==> init[i] == report[i];
      if ElementsWith(last.elements, s) > 0 {
        var j :| 0 <= j < |last.elements| && StatusOf(last.elements[j]) == s;
        assert StatusOf(report[|report| - 1].elements[j]) == s;
      }
    }
  }

  /** A report has a scenario exactly when its scenario count is positive. */
  lemma {:induction false} ScenariosPositive(report: seq<Feature>)
    ensures Scenarios(report) > 0 <==> exists i :: 0 <= i < |report| && report[i].elements != []
  {
    if report != [] {
      var init := report[..|report| - 1];
      ScenariosPositive(init);
      assert forall i :: 0 <= i < |init| ==> init[i] == report[i];
    }
  }

  // ---------------------------------------------------------------------------
  // The normalised records.

  /** The tag names that are truthy, in order, as `[tag.get("name") for tag in tags if tag.get("name")]`. */
  function TruthyNames(tags: seq<map<string, Json>>): (r: seq<Json>)
    ensures |r| <= |tags|
    ensures forall i :: 0 <= i < |r| ==> Truthy(r[i])
  {
    if tags == [] then []
    else
      var name := Lookup(tags[0], "name", JNull);
      (if Truthy(name) then [name] else []) + TruthyNames(tags[1..])
  }

  /** Filtering tags distributes over concatenation: the kept names stay in their order. */
  lemma {:induction false} TruthyNamesConcat(a: seq<map<string, Json>>, b: seq<map<string, Json>>)
    ensures TruthyNames(a + b) == TruthyNames(a) + TruthyNames(b)
  {
    if a != [] {
      assert (a + b)[0] == a[0];
      assert (a + b)[1..] == a[1..] + b;
      TruthyNamesConcat(a[1..], b);
      var name := Lookup(a[0], "name", JNull);
      var head: seq<Json> := if Truthy(name) then [name] else [];
      calc {
        TruthyNames(a + b);
        head + TruthyNames(a[1..] + b);
        head + (TruthyNames(a[1..]) + TruthyNames(b));
        { Assoc(head, TruthyNames(a[1..]), TruthyNames(b)); }
        (head + TruthyNames(a[1..])) + TruthyNames(b);
        TruthyNames(a) + TruthyNames(b);
      }
    } else {
      assert a + b == b;
    }
  }

  /** The kept values are exactly the truthy names: a tag whose name is missing or
      falsy contributes nothing. */
  lemma {:induction false} TruthyNamesMembers(tags: seq<map<string, Json>>)
    ensures forall x :: x in TruthyNames(tags) <==>
      exists i :: 0 <= i < |tags| && Lookup(tags[i], "name", JNull) == x && Truthy(x)
  {
    if tags != [] {
      var tail := tags[1..];
      TruthyNamesMembers(tail);
      assert forall i :: 0 <= i < |tail| ==> tail[i] == tags[i + 1];
      forall x | exists i :: 0 <= i < |tags| && Lookup(tags[i], "name", JNull) == x && Truthy(x)
        ensures x in TruthyNames(tags)
      {
        var i :| 0 <= i < |tags| && Lookup(tags[i], "name", JNull) == x && Truthy(x);
        if i > 0 {
          assert Lookup(tail[i - 1], "name", JNull) == x;
        }
      }
    }
  }

  /** When every name is truthy, every name is kept. */
  lemma {:induction false} TruthyNamesKeepsAll(tags: seq<map<string, Json>>)
    requires forall i :: 0 <= i < |tags| ==> Truthy(Lookup(tags[i], "name", JNull))
    ensures TruthyNames(tags) == seq(|tags|, i requires 0 <= i < |tags| => Lookup(tags[i], "name", JNull))
  {
    if tags != [] {
      TruthyNamesKeepsAll(tags[1..]);
    }
  }

  /** The step objects of a scenario, as the report page receives them. */
  function RawSteps(steps: seq<Step>): seq<Json> {
    seq(|steps|, k requires 0 <= k < |steps| => JObject(steps[k].fields))
  }

  /** The record of one element: its name or "Unnamed scenario", the name of its status
      and its step objects. */
  function ScenarioRecordOf(e: Element): (r: ScenarioRecord)
    ensures "name" !in e.fields ==> r.name == JString("Unnamed scenario")
    ensures r.status == "unknown" <==> e.steps == []
    ensures r.status == "failed" <==> exists k :: 0 <= k < |e.steps| && e.steps[k].status == JString("failed")
    ensures |r.steps| == |e.steps| && forall k :: 0 <= k < |e.steps| ==> r.steps[k] == JObject(e.steps[k].fields)
  {
    StatusNameInjective(StatusOf(e), Unknown);
    StatusNameInjective(StatusOf(e), Failed);
    ScenarioRecord(Lookup(e.fields, "name", JString("Unnamed scenario")), StatusOf(e).Name(), RawSteps(e.steps))
  }

  /** The records of a list of elements, one per element, in order. */
  function ScenarioRecords(es: seq<Element>): seq<ScenarioRecord> {
    seq(|es|, k requires 0 <= k < |es| => ScenarioRecordOf(es[k]))
  }

  /** The record of one feature: its name or "Unnamed feature", its description or
      the empty string, its truthy tag names and its scenario records. */
  function FeatureRecordOf(f: Feature): (r: FeatureRecord)
    ensures "name" !in f.fields ==> r.name == JString("Unnamed feature")
    ensures "description" !in f.fields ==> r.description == JString("")
    ensures |r.tags| <= |f.tags|
    ensures |r.scenarios| == |f.elements| && forall k :: 0 <= k < |f.elements| ==> r.scenarios[k] == ScenarioRecordOf(f.elements[k])
  {
    FeatureRecord(
      Lookup(f.fields, "name", JString("Unnamed feature")),
      Lookup(f.fields, "description", JString("")),
      TruthyNames(f.tags),
      ScenarioRecords(f.elements))
  }

  /** The records of a report, one per feature, in order. */
  function Records(report: seq<Feature>): (r: seq<FeatureRecord>)
    ensures |r| == |report| && forall k :: 0 <= k < |report| ==> r[k] == FeatureRecordOf(report[k])
  {
    seq(|report|, k requires 0 <= k < |report| => FeatureRecordOf(report[k]))
  }

  // ---------------------------------------------------------------------------
  // The summariser itself.

  /** One more element: the element-level counts grow by what it contributes. */
  lemma ElementsStep(es: seq<Element>, j: nat)
    requires j < |es|
    ensures ElementSteps(es[..j + 1]) == ElementSteps(es[..j]) + |es[j].steps|
    ensures ElementsWith(es[..j + 1], Passed) == ElementsWith(es[..j], Passed) + (if StatusOf(es[j]) == Passed then 1 else 0)
    ensures ElementsWith(es[..j + 1], Failed) == ElementsWith(es[..j], Failed) + (if StatusOf(es[j]) == Failed then 1 else 0)
    ensures ElementsWith(es[..j + 1], Skipped) + ElementsWith(es[..j + 1], Unknown) ==
      ElementsWith(es[..j], Skipped) + ElementsWith(es[..j], Unknown) + (if StatusOf(es[j]) == Skipped || StatusOf(es[j]) == Unknown then 1 else 0)
  {
    assert es[..j + 1][..j] == es[..j];
  }

  /** One more element: its record is appended to the scenario records. */
  lemma ScenarioRecordsStep(es: seq<Element>, j: nat)
    requires j < |es|
    ensures ScenarioRecords(es[..j + 1]) == ScenarioRecords(es[..j]) + [ScenarioRecordOf(es[j])]
  {
    var a, b := ScenarioRecords(es[..j + 1]), ScenarioRecords(es[..j]) + [ScenarioRecordOf(es[j])];
    assert |a| == |b|;
    forall k | 0 <= k < |a|
      ensures a[k] == b[k]
    {
      assert es[..j + 1][k] == es[k];
      if k < j {
        assert es[..j][k] == es[k];
      }
    }
  }

  /** One more feature: the report-level counts grow by what it contributes. */
  lemma FeaturesStep(report: seq<Feature>, i: nat)
    requires i < |report|
    ensures Scenarios(report[..i + 1]) == Scenarios(report[..i]) + |report[i].elements|
    ensures Steps(report[..i + 1]) == Steps(report[..i]) + ElementSteps(report[i].elements)
    ensures forall s :: ScenariosWith(report[..i + 1], s) == ScenariosWith(report[..i], s) + ElementsWith(report[i].elements, s)
  {
    assert report[..i + 1][..i] == report[..i];
  }

  /** One more feature: its record is appended to the feature records. */
  lemma RecordsStep(report: seq<Feature>, i: nat)
    requires i < |report|
    ensures Records(report[..i + 1]) == Records(report[..i]) + [FeatureRecordOf(report[i])]
  {
    var a, b := Records(report[..i + 1]), Records(report[..i]) + [FeatureRecordOf(report[i])];
    assert |a| == |b|;
    forall k | 0 <= k < |a|
      ensures a[k] == b[k]
    {
      assert report[..i + 1][k] == report[k];
      if k < i {
        assert report[..i][k] == report[k];
      }
    }
  }

  /** The summary after counting `elements` on top of `summary`. */
  function Counted(summary: Summary, elements: seq<Element>): Summary {
    summary.(
      scenarios := summary.scenarios + |elements|,
      steps := summary.steps + ElementSteps(elements),
      passed := summary.passed + ElementsWith(elements, Passed),
      failed := summary.failed + ElementsWith(elements, Failed),
      skipped := summary.skipped + ElementsWith(elements, Skipped) + ElementsWith(elements, Unknown))
  }

  /** The inner loop of `_summarize_report`: each element of one feature bumps the
      counters by its status and its steps, and adds its record. The counters are
      local variables while the loop runs. */
  method CountElements(summary: Summary, elements: seq<Element>) returns (after: Summary, scenarios: seq<ScenarioRecord>)
    ensures after == Counted(summary, elements)
    ensures |scenarios| == |elements|
    ensures forall j :: 0 <= j < |elements| ==> scenarios[j] == ScenarioRecordOf(elements[j])
  {
    var count: nat, passed: nat, failed: nat, skipped: nat, steps: nat := summary.scenarios, summary.passed, summary.failed, summary.skipped, summary.steps;
    scenarios := [];
    var j := 0;
    while j < |elements|
      invariant 0 <= j <= |elements|
      invariant count == summary.scenarios + j
      invariant steps == summary.steps + ElementSteps(elements[..j])
      invariant passed == summary.passed + ElementsWith(elements[..j], Passed)
      invariant failed == summary.failed + ElementsWith(elements[..j], Failed)
      invariant skipped == summary.skipped + ElementsWith(elements[..j], Skipped) + ElementsWith(elements[..j], Unknown)
      invariant scenarios == ScenarioRecords(elements[..j])
    {
      var element := elements[j];
      var status := StatusOf(element);
      ElementsStep(elements, j);
      ScenarioRecordsStep(elements, j);
      count := count + 1;
      steps := steps + |element.steps|;
      if status == Passed {
        passed := passed + 1;
      } else if status == Failed {
        failed := failed + 1;
      } else {
        skipped := skipped + 1;
      }
      var record := ScenarioRecord(Lookup(element.fields, "name", JString("Unnamed scenario")), status.Name(), RawSteps(element.steps));
      assert record == ScenarioRecordOf(element);
      scenarios := scenarios + [record];
      j := j + 1;
    }
    assert elements[..j] == elements;
    after := summary.(scenarios := count, passed := passed, failed := failed, skipped := skipped, steps := steps);
  }

  /** `_summarize_report` on a parsed report: the counters are bumped and the records
      appended, feature by feature. */
  method Summarize(report: seq<Feature>) returns (summary: Summary, features: seq<FeatureRecord>)
    ensures summary == Tally(report)
    ensures summary.passed + summary.failed + summary.skipped == summary.scenarios
    ensures |features| == |report|
    ensures forall i :: 0 <= i < |report| ==> features[i] == FeatureRecordOf(report[i])
  {
    summary := Summary(features := 0, scenarios := 0, passed := 0, failed := 0, skipped := 0, steps := 0);
    features := [];
    var i := 0;
    while i < |report|
      invariant 0 <= i <= |report|
      invariant summary == Tally(report[..i])
      invariant features == Records(report[..i])
    {
      var feature := report[i];
      var scenarios;
      summary, scenarios := CountElements(summary, feature.elements);
      assert scenarios == ScenarioRecords(feature.elements);
      FeaturesStep(report, i);
      RecordsStep(report, i);
      summary := summary.(features := summary.features + 1);
      var record := FeatureRecord(
        Lookup(feature.fields, "name", JString("Unnamed feature")),
        Lookup(feature.fields, "description", JString("")),
        TruthyNames(feature.tags),
        scenarios);
      assert record == FeatureRecordOf(feature);
      features := features + [record];
      i := i + 1;
    }
    assert report[..i] == report;
  }

  /** `_summarize_report` on a parsed JSON document: `None` where the Python raises. */
  method SummarizeReport(doc: Json) returns (r: Option<(Summary, seq<FeatureRecord>)>)
    ensures r.None? <==> Parse(doc).None?
    ensures r.Some? ==> r.value.0 == Tally(Parse(doc).value) && r.value.1 == Records(Parse(doc).value)
  {
    var report := Parse(doc);
    if report.None? {
      return None;
    }
    var summary, features := Summarize(report.value);
    return Some((summary, features));
  }
}
