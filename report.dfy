/** The shape of a Cucumber report as the summariser reads it: features, their
    elements (scenarios) and tags, and the steps of each element. Parsing a JSON
    document into this shape performs every lookup with a default, every `or []`
    and every iteration the summariser does, and fails exactly where the summariser
    would raise. */
module Report {
  import opened Wrappers
  import opened JsonValue

  /** A step object with the status it reports (`"unknown"` when it has none). */
  datatype Step = Step(fields: map<string, Json>, status: Json)

  /** A scenario object with its steps. */
  datatype Element = Element(fields: map<string, Json>, steps: seq<Step>)

  /** A feature object with its elements and its tag objects. */
  datatype Feature = Feature(fields: map<string, Json>, elements: seq<Element>, tags: seq<map<string, Json>>)

  /** `step.get("result", {}).get("status", "unknown")`: raises when the result is
      present but is not a dictionary. */
  function ParseStep(step: map<string, Json>): (r: Option<Step>)
    ensures r.None? <==> "result" in step && !step["result"].JObject?
    ensures r.Some? ==> r.value.fields == step
    ensures r.Some? && ("result" !in step || "status" !in step["result"].fields) ==>
      r.value.status == JString("unknown")
    ensures r.Some? && "result" in step && "status" in step["result"].fields ==>
      r.value.status == step["result"].fields["status"]
  {
    var result := Lookup(step, "result", JObject(map[]));
    if result.JObject? then Some(Step(step, Lookup(result.fields, "status", JString("unknown"))))
    else None
  }

  /** An element's `element.get("steps", []) or []`, each step parsed. */
  function ParseElement(element: map<string, Json>): (r: Option<Element>)
    ensures r.Some? ==> r.value.fields == element
    ensures r.Some? && ("steps" !in element || !Truthy(element["steps"])) ==> r.value.steps == []
    ensures ("steps" !in element || !Truthy(element["steps"])) ==> r.Some?
    ensures r.Some? && "steps" in element && element["steps"].JArray? ==>
      |r.value.steps| == |element["steps"].items| &&
      forall k :: 0 <= k < |r.value.steps| ==> element["steps"].items[k] == JObject(r.value.steps[k].fields)
    ensures r.Some? ==> forall k :: 0 <= k < |r.value.steps| ==> ParseStep(r.value.steps[k].fields) == Some(r.value.steps[k])
    ensures r.None? <==>
      "steps" in element && Truthy(element["steps"]) &&
      (!element["steps"].JArray? ||
       exists k :: 0 <= k < |element["steps"].items| &&
         (!element["steps"].items[k].JObject? || ParseStep(element["steps"].items[k].fields).None?))
  {
    match ListOrEmpty(element, "steps")
    case None => None
    case Some(steps) =>
      match Traverse(steps, ParseStep)
      case None => None
      case Some(parsed) => Some(Element(element, parsed))
  }

  /** A feature's `feature.get("elements", []) or []`, each element parsed, and its
      `feature.get("tags", [])` iterated. The tags have no `or []`: a `null` there raises. */
  function ParseFeature(feature: map<string, Json>): (r: Option<Feature>)
    ensures r.Some? ==> r.value.fields == feature
    ensures r.Some? && ("elements" !in feature || !Truthy(feature["elements"])) ==> r.value.elements == []
    ensures r.Some? && "tags" !in feature ==> r.value.tags == []
    ensures "tags" in feature && feature["tags"] == JNull ==> r.None?
    ensures ("elements" !in feature || !Truthy(feature["elements"])) && "tags" !in feature ==> r.Some?
    ensures r.Some? && "elements" in feature && feature["elements"].JArray? ==>
      |r.value.elements| == |feature["elements"].items| &&
      forall k :: 0 <= k < |r.value.elements| ==> feature["elements"].items[k] == JObject(r.value.elements[k].fields)
    ensures r.Some? && "tags" in feature && feature["tags"].JArray? ==>
      |r.value.tags| == |feature["tags"].items| &&
      forall k :: 0 <= k < |r.value.tags| ==> feature["tags"].items[k] == JObject(r.value.tags[k])
    ensures r.Some? ==> ObjectItems(Lookup(feature, "tags", JArray([]))) == Some(r.value.tags)
    ensures r.Some? ==> forall k :: 0 <= k < |r.value.elements| ==> ParseElement(r.value.elements[k].fields) == Some(r.value.elements[k])
    ensures r.None? <==>
      ("tags" in feature && ObjectItems(feature["tags"]).None?) ||
      ("elements" in feature && Truthy(feature["elements"]) &&
       (!feature["elements"].JArray? ||
        exists k :: 0 <= k < |feature["elements"].items| &&
          (!feature["elements"].items[k].JObject? || ParseElement(feature["elements"].items[k].fields).None?)))
  {
    match (ListOrEmpty(feature, "elements"), ObjectItems(Lookup(feature, "tags", JArray([]))))
    case (Some(elements), Some(tags)) =>
      (match Traverse(elements, ParseElement)
       case None => None
       case Some(parsed) => Some(Feature(feature, parsed, tags)))
    case _ => None
  }

  /** The report document: the top-level value is iterated without a default, so it
      must be a list of feature objects (or iterate over nothing), and one malformed
      feature anywhere makes the whole summary fail. */
  function Parse(doc: Json): (r: Option<seq<Feature>>)
    ensures r.Some? <==>
      ObjectItems(doc).Some? &&
      forall i :: 0 <= i < |ObjectItems(doc).value| ==> ParseFeature(ObjectItems(doc).value[i]).Some?
    ensures r.Some? ==>
      |r.value| == |ObjectItems(doc).value| &&
      forall i :: 0 <= i < |r.value| ==> ParseFeature(ObjectItems(doc).value[i]) == Some(r.value[i])
  {
    match ObjectItems(doc)
    case None => None
    case Some(features) => Traverse(features, ParseFeature)
  }
}
