/** The scenario status resolver: one status for a scenario from the statuses of its
    steps, by first-match priority (failed, then skipped, then passed, then unknown). */
module StatusResolver {
  import opened JsonValue

  datatype Status = Failed | Skipped | Passed | Unknown {
    /** The string the report shows for this status. */
    function Name(): string {
      match this
      case Failed => "failed"
      case Skipped => "skipped"
      case Passed => "passed"
      case Unknown => "unknown"
    }
  }

  /** Distinct statuses are shown as distinct strings, so a record's status string
      determines the status. */
  lemma StatusNameInjective(a: Status, b: Status)
    ensures a.Name() == b.Name() ==> a == b
  {
  }

  /** The step statuses that make a scenario count as skipped. */
  predicate SkipLike(v: Json) {
    v == JString("skipped") || v == JString("pending") || v == JString("undefined")
  }

  /** `_scenario_status` from the list of step statuses onwards. Any step value other
      than the four named ones (including the "unknown" a step without a result gets)
      falls through to passed as long as the list is not empty. */
  function Resolve(statuses: seq<Json>): (r: Status)
    ensures r == Failed <==> exists i :: 0 <= i < |statuses| && statuses[i] == JString("failed")
    ensures r == Skipped <==>
      (forall i :: 0 <= i < |statuses| ==> statuses[i] != JString("failed")) &&
      (exists i :: 0 <= i < |statuses| && SkipLike(statuses[i]))
    ensures r == Passed <==>
      statuses != [] &&
      forall i :: 0 <= i < |statuses| ==> statuses[i] != JString("failed") && !SkipLike(statuses[i])
    ensures r == Unknown <==> statuses == []
  {
    if JString("failed") in statuses then Failed
    else if JString("skipped") in statuses || JString("pending") in statuses || JString("undefined") in statuses then Skipped
    else if statuses != [] then Passed
    else Unknown
  }

  /** Priority of a status: a scenario takes the status of highest priority among its steps. */
  function Rank(s: Status): nat {
    match s
    case Unknown => 0
    case Passed => 1
    case Skipped => 2
    case Failed => 3
  }

  /** The status of higher priority. */
  function Worse(a: Status, b: Status): Status {
    if Rank(a) >= Rank(b) then a else b
  }

  /** What a single step says about its scenario. */
  function StepVerdict(v: Json): Status {
    if v == JString("failed") then Failed
    else if SkipLike(v) then Skipped
    else Passed
  }

  /** Reference definition: step verdicts combined one at a time, starting from unknown. */
  function WorstOf(statuses: seq<Json>): Status {
    if statuses == [] then Unknown else Worse(StepVerdict(statuses[0]), WorstOf(statuses[1..]))
  }

  /** The membership tests of the resolver agree with combining the steps one by one. */
  lemma {:induction false} ResolveIsWorstOf(statuses: seq<Json>)
    ensures Resolve(statuses) == WorstOf(statuses)
  {
    if statuses != [] {
      ResolveIsWorstOf(statuses[1..]);
      assert statuses == [statuses[0]] + statuses[1..];
      assert forall x :: x in statuses <==> x == statuses[0] || x in statuses[1..];
    }
  }

  /** The status of two step lists put together is the worse of their two statuses:
      a failed step anywhere makes the scenario failed, whatever surrounds it. */
  lemma ResolveConcat(a: seq<Json>, b: seq<Json>)
    ensures Resolve(a + b) == Worse(Resolve(a), Resolve(b))
  {
  }

  /** The order of the steps does not matter. */
  lemma ResolvePermutation(a: seq<Json>, b: seq<Json>)
    requires multiset(a) == multiset(b)
    ensures Resolve(a) == Resolve(b)
  {
    assert forall x :: x in a <==> x in multiset(a);
    assert forall x :: x in b <==> x in multiset(b);
  }

  /** A status is unknown only for a scenario without steps, and a non-empty list of
      steps that all defaulted to "unknown" resolves to passed. */
  lemma DefaultedStepsPass(statuses: seq<Json>)
    requires statuses != []
    requires forall i :: 0 <= i < |statuses| ==> statuses[i] == JString("unknown")
    ensures Resolve(statuses) == Passed
  {
  }
}
