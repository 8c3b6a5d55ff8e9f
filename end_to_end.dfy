/** Whole reports run through the parser, the summariser's specification and the
    overall-status rule. */
module EndToEnd {
  import opened Wrappers
  import opened JsonValue
  import opened Report
  import StatusResolver
  import opened Summarizer
  import opened BuildStatus

  /** `{"result": {"status": status}}`. */
  function StepObject(status: string): map<string, Json> {
    map["result" := JObject(map["status" := JString(status)])]
  }

  /** `{"steps": [...]}`. */
  function ScenarioObject(steps: seq<map<string, Json>>): map<string, Json> {
    map["steps" := JArray(seq(|steps|, i requires 0 <= i < |steps| => JObject(steps[i])))]
  }

  /** `{"elements": [...]}`. */
  function FeatureObject(scenarios: seq<map<string, Json>>): map<string, Json> {
    map["elements" := JArray(seq(|scenarios|, i requires 0 <= i < |scenarios| => JObject(scenarios[i])))]
  }

  lemma ParseStepObject(status: string)
    ensures ParseStep(StepObject(status)) == Some(Step(StepObject(status), JString(status)))
  {
  }

  lemma ParseScenarioObject(steps: seq<map<string, Json>>, parsed: seq<Step>)
    requires steps != []
    requires |parsed| == |steps| && forall i :: 0 <= i < |steps| ==> ParseStep(steps[i]) == Some(parsed[i])
    ensures ParseElement(ScenarioObject(steps)) == Some(Element(ScenarioObject(steps), parsed))
  {
    var element := ScenarioObject(steps);
    var v := element["steps"];
    assert v.items[0] == JObject(steps[0]);
    assert Truthy(v);
    var items := ObjectItems(v);
    assert items.Some?;
    assert items.value == steps;
    assert ListOrEmpty(element, "steps") == Some(steps);
    var r := Traverse(steps, ParseStep);
    assert r.value == parsed;
  }

  lemma ParseFeatureObject(scenarios: seq<map<string, Json>>, parsed: seq<Element>)
    requires |parsed| == |scenarios| && forall i :: 0 <= i < |scenarios| ==> ParseElement(scenarios[i]) == Some(parsed[i])
    ensures ParseFeature(FeatureObject(scenarios)) == Some(Feature(FeatureObject(scenarios), parsed, []))
  {
    var feature := FeatureObject(scenarios);
    var v := feature["elements"];
    if scenarios == [] {
      assert v == JArray([]);
    } else {
      assert v.items[0] == JObject(scenarios[0]);
      assert Truthy(v);
      var items := ObjectItems(v);
      assert items.Some?;
      assert items.value == scenarios;
    }
    assert ListOrEmpty(feature, "elements") == Some(scenarios);
    var r := Traverse(scenarios, ParseElement);
    assert r.value == parsed;
  }

  lemma ParseDocument(features: seq<map<string, Json>>, parsed: seq<Feature>)
    requires |parsed| == |features| && forall i :: 0 <= i < |features| ==> ParseFeature(features[i]) == Some(parsed[i])
    ensures Parse(JArray(seq(|features|, i requires 0 <= i < |features| => JObject(features[i])))) == Some(parsed)
  {
    var doc := JArray(seq(|features|, i requires 0 <= i < |features| => JObject(features[i])));
    var items := ObjectItems(doc);
    assert items.Some?;
    assert items.value == features;
    var r := Traverse(features, ParseFeature);
    assert r.value == parsed;
  }

  lemma OneFeature(f: Feature)
    ensures Scenarios([f]) == |f.elements| && Steps([f]) == ElementSteps(f.elements)
    ensures forall st :: ScenariosWith([f], st) == ElementsWith(f.elements, st)
  {
    assert [f][..0] == [];
  }

  lemma OneElement(e: Element)
    ensures ElementSteps([e]) == |e.steps|
    ensures forall st :: ElementsWith([e], st) == if StatusOf(e) == st then 1 else 0
  {
    assert [e][..0] == [];
  }

  lemma TwoElements(e1: Element, e2: Element)
    ensures ElementSteps([e1, e2]) == |e1.steps| + |e2.steps|
    ensures forall st :: ElementsWith([e1, e2], st) == (if StatusOf(e1) == st then 1 else 0) + (if StatusOf(e2) == st then 1 else 0)
  {
    assert [e1, e2][..1] == [e1];
    OneElement(e1);
  }

  /** A document of one feature with one scenario with one step. */
  lemma OneStepDocument(status: string) returns (f: Feature)
    ensures Parse(JArray([JObject(FeatureObject([ScenarioObject([StepObject(status)])]))])) == Some([f])
    ensures var verdict := StatusResolver.Resolve([JString(status)]);
      Tally([f]) == Summary(
        features := 1, scenarios := 1,
        passed := if verdict == StatusResolver.Passed then 1 else 0,
        failed := if verdict == StatusResolver.Failed then 1 else 0,
        skipped := if verdict == StatusResolver.Skipped then 1 else 0,
        steps := 1)
  {
    var step := StepObject(status);
    var scenario := ScenarioObject([step]);
    var feature := FeatureObject([scenario]);
    ParseStepObject(status);
    var s := Step(step, JString(status));
    ParseScenarioObject([step], [s]);
    var e := Element(scenario, [s]);
    ParseFeatureObject([scenario], [e]);
    f := Feature(feature, [e], []);
    ParseDocument([feature], [f]);
    assert [JObject(feature)] == seq(1, i requires 0 <= i < 1 => JObject([feature][i]));
    assert Statuses(e.steps) == [JString(status)];
    OneElement(e);
    OneFeature(f);
  }

  /** One feature, one scenario, one passed step: all passed. */
  lemma SinglePassedStep()
    ensures
      var doc := JArray([JObject(FeatureObject([ScenarioObject([StepObject("passed")])]))]);
      Parse(doc).Some? &&
      Tally(Parse(doc).value) == Summary(features := 1, scenarios := 1, passed := 1, failed := 0, skipped := 0, steps := 1) &&
      OverallStatus(Tally(Parse(doc).value)) == Passed
  {
    var f := OneStepDocument("passed");
    assert StatusResolver.Resolve([JString("passed")]) == StatusResolver.Passed;
    assert Tally([f]) == Summary(features := 1, scenarios := 1, passed := 1, failed := 0, skipped := 0, steps := 1);
  }

  /** One feature with a failed and a passed scenario: one of each, and the build failed. */
  lemma FailedAndPassedScenarios()
    ensures
      var doc := JArray([JObject(FeatureObject([ScenarioObject([StepObject("failed")]), ScenarioObject([StepObject("passed")])]))]);
      Parse(doc).Some? &&
      Tally(Parse(doc).value) == Summary(features := 1, scenarios := 2, passed := 1, failed := 1, skipped := 0, steps := 2) &&
      OverallStatus(Tally(Parse(doc).value)) == Failed
  {
    var failed, passed := StepObject("failed"), StepObject("passed");
    var scenario1, scenario2 := ScenarioObject([failed]), ScenarioObject([passed]);
    var feature := FeatureObject([scenario1, scenario2]);
    var s1, s2 := Step(failed, JString("failed")), Step(passed, JString("passed"));
    var e1, e2 := Element(scenario1, [s1]), Element(scenario2, [s2]);
    var f := Feature(feature, [e1, e2], []);
    ParseTwoScenarios(failed, passed, s1, s2, e1, e2, f);
    StatusOfOneStep(e1);
    StatusOfOneStep(e2);
    TwoElements(e1, e2);
    OneFeature(f);
    assert ScenariosWith([f], StatusResolver.Passed) == 1 && ScenariosWith([f], StatusResolver.Failed) == 1;
    assert ScenariosWith([f], StatusResolver.Skipped) == 0 && ScenariosWith([f], StatusResolver.Unknown) == 0;
  }

  lemma ParseTwoScenarios(failed: map<string, Json>, passed: map<string, Json>, s1: Step, s2: Step, e1: Element, e2: Element, f: Feature)
    requires failed == StepObject("failed") && passed == StepObject("passed")
    requires s1 == Step(failed, JString("failed")) && s2 == Step(passed, JString("passed"))
    requires e1 == Element(ScenarioObject([failed]), [s1]) && e2 == Element(ScenarioObject([passed]), [s2])
    requires f == Feature(FeatureObject([e1.fields, e2.fields]), [e1, e2], [])
    ensures Parse(JArray([JObject(f.fields)])) == Some([f])
  {
    ParseStepObject("failed");
    ParseStepObject("passed");
    ParseScenarioObject([failed], [s1]);
    ParseScenarioObject([passed], [s2]);
    ParseFeatureObject([e1.fields, e2.fields], [e1, e2]);
    ParseDocument([f.fields], [f]);
    assert [JObject(f.fields)] == seq(1, i requires 0 <= i < 1 => JObject([f.fields][i]));
  }

  lemma StatusOfOneStep(e: Element)
    requires |e.steps| == 1
    ensures e.steps[0].status == JString("failed") ==> StatusOf(e) == StatusResolver.Failed
    ensures e.steps[0].status == JString("passed") ==> StatusOf(e) == StatusResolver.Passed
    ensures e.steps[0].status == JString("skipped") ==> StatusOf(e) == StatusResolver.Skipped
  {
    assert Statuses(e.steps) == [e.steps[0].status];
  }

  /** A single skipped step, and nothing passed: the build is skipped. */
  lemma SingleSkippedStep()
    ensures
      var doc := JArray([JObject(FeatureObject([ScenarioObject([StepObject("skipped")])]))]);
      Parse(doc).Some? &&
      Tally(Parse(doc).value) == Summary(features := 1, scenarios := 1, passed := 0, failed := 0, skipped := 1, steps := 1) &&
      OverallStatus(Tally(Parse(doc).value)) == Skipped
  {
    var f := OneStepDocument("skipped");
    assert StatusResolver.Resolve([JString("skipped")]) == StatusResolver.Skipped;
    assert Tally([f]) == Summary(features := 1, scenarios := 1, passed := 0, failed := 0, skipped := 1, steps := 1);
  }

  /** A feature object without an "elements" key: no scenarios, the default name and
      description, and no error. */
  lemma FeatureWithoutElements()
    ensures
      var doc := JArray([JObject(map[])]);
      Parse(doc).Some? &&
      Tally(Parse(doc).value) == Summary(features := 1, scenarios := 0, passed := 0, failed := 0, skipped := 0, steps := 0) &&
      Records(Parse(doc).value) == [FeatureRecord(JString("Unnamed feature"), JString(""), [], [])] &&
      OverallStatus(Tally(Parse(doc).value)) == Passed
  {
    var feature: map<string, Json> := map[];
    var f := Feature(feature, [], []);
    assert ParseFeature(feature) == Some(f);
    ParseDocument([feature], [f]);
    assert [JObject(feature)] == seq(1, i requires 0 <= i < 1 => JObject([feature][i]));
    OneFeature(f);
    assert Records([f]) == [FeatureRecordOf(f)];
    assert ScenarioRecords([]) == [];
  }

  /** A scenario object without steps resolves to unknown and is counted as skipped,
      so a build made only of such scenarios is skipped. */
  lemma ScenarioWithoutSteps()
    ensures
      var doc := JArray([JObject(FeatureObject([map[]]))]);
      Parse(doc).Some? &&
      Tally(Parse(doc).value) == Summary(features := 1, scenarios := 1, passed := 0, failed := 0, skipped := 1, steps := 0) &&
      Records(Parse(doc).value)[0].scenarios == [ScenarioRecord(JString("Unnamed scenario"), "unknown", [])] &&
      OverallStatus(Tally(Parse(doc).value)) == Skipped
  {
    var scenario: map<string, Json> := map[];
    var feature := FeatureObject([scenario]);
    var e := Element(scenario, []);
    assert ParseElement(scenario) == Some(e);
    ParseFeatureObject([scenario], [e]);
    var f := Feature(feature, [e], []);
    ParseDocument([feature], [f]);
    assert [JObject(feature)] == seq(1, i requires 0 <= i < 1 => JObject([feature][i]));
    assert StatusOf(e) == StatusResolver.Unknown;
    OneElement(e);
    OneFeature(f);
    assert ScenariosWith([f], StatusResolver.Unknown) == 1 && ScenariosWith([f], StatusResolver.Skipped) == 0;
    assert ScenariosWith([f], StatusResolver.Passed) == 0 && ScenariosWith([f], StatusResolver.Failed) == 0;
    assert Records([f])[0] == FeatureRecordOf(f);
    assert ScenarioRecords([e]) == [ScenarioRecordOf(e)];
    assert ScenarioRecordOf(e).steps == [];
  }
}
