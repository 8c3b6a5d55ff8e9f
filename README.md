# Cucumber report summary: a Dafny model

This project models the report-summarisation core of a small web application. The
application receives Cucumber JSON reports from CI builds, stores them, and shows
pass/fail/skip statistics for each build. The model covers four pieces of `app.py`:

- **the scenario status resolver** (`_scenario_status`). It reduces the steps of a
  scenario to one status by first-match priority: failed, then skipped
  (skipped/pending/undefined), then passed for any other non-empty list, then unknown;
- **the report summariser** (`_summarize_report`). It makes one pass over features,
  their elements (scenarios) and their steps. It keeps six global counters and builds
  the normalised feature list that the report page renders;
- **the overall build status rule**. The application writes it twice, once in the build
  list and once in the upload handler;
- **the build-identifier sanitiser** (`_safe_id`).

The input is the parsed JSON tree (`JsonValue.Json`). The summariser reads it leniently
with `dict.get(key, default)`, `value or []` and iteration. These are modelled exactly,
and so are the places where the Python raises. A step whose `result` is not an object
raises, and so does a list item that is not an object, a non-empty string or object
where a list is iterated, or `null`/a number/a boolean where one is iterated. The
Python raises out of the whole summary, so the model has a single error outcome
(`None`).

The model is split in two phases:

- `Report.Parse` performs every lookup, default and iteration check, and gives a
  typed `Report.Feature` list.
- `Summarizer.Summarize` is the counting loop. Like the source, it is imperative. Its
  outer `while` loop runs over the features. The inner loop over a feature's elements
  is the method `Summarizer.CountElements`, which bumps the counters and collects the
  scenario records. The outer loop then appends the feature record built from those
  scenario records. The proof ties the result to reference definitions: `Tally` gives
  the counters as plain sums over the report, and `Records` gives one record per
  feature and per element, in order.

`Summarizer.SummarizeReport` puts the two phases together.

Three behaviours of the code are easy to misread, and the model keeps them as written:

- A scenario whose status is `unknown` (one with no steps) is counted in the `skipped`
  counter (`app.py:112-113`). So `passed + failed + skipped == scenarios` always holds,
  and a build made only of step-less scenarios is reported as `skipped`; see
  `EndToEnd.ScenarioWithoutSteps`.
- `tags` has no `or []` (`app.py:127`), unlike `elements` and `steps`. So `"tags": null`,
  `false` or `0` makes the summary fail, while `"elements": null` means no scenarios.
- A `"name": null` key is kept as `null`; the `"Unnamed feature"` / `"Unnamed
  scenario"` default applies only when the key is absent.

## Model

| member | source | states |
|---|---|---|
| `JsonValue.Truthy` | app.py:101-104 | Python truthiness on a JSON value: a value is falsy exactly when it is `null`, `false`, zero, `""`, `[]` or `{}`; used by `ListOrEmpty`, `OrEmpty` and `TruthyNames` |
| `JsonValue.Lookup` | app.py:79 | `d.get(key, default)`: the stored value when the key is present, the default exactly when it is absent (a stored `null` is kept); used for every default in `ParseStep`, `ParseFeature`, `ScenarioRecordOf` and `FeatureRecordOf` |
| `JsonValue.OrEmpty` | app.py:101-104 | `value or []`: a truthy value is kept and a falsy one becomes the empty list; `ListOrEmpty` iterates its result |
| `JsonValue.ObjectItems` | app.py:100-104 | `for x in v: x.get(...)` succeeds exactly on a list of objects (or on `""`/`{}`, which iterate over nothing), visiting those objects in order; every other value raises |
| `JsonValue.ListOrEmpty` | app.py:101-104 | `d.get(k, []) or []` gives the empty list when the key is absent or falsy; it raises exactly when the value is truthy and is not a list of objects |
| `Report.ParseStep` | app.py:79 | a step raises exactly when its `result` is present and is not an object; its status is `result.status`, or `"unknown"` when the result or the status is missing |
| `Report.ParseElement` | app.py:79-104 | missing or falsy `steps` give an empty step list; otherwise the element raises exactly when `steps` is not a list, or one of its items is not an object or raises in `ParseStep`; each parsed step is the `ParseStep` result of its raw step object, in order |
| `Report.ParseFeature` | app.py:101-127 | missing or falsy `elements` give no scenarios; missing `tags` give no tags; the feature raises exactly when `tags` is present and does not iterate over objects (so `null`, `false`, `0` raise), or when truthy `elements` is not a list, or one of its items is not an object or raises in `ParseElement`; each parsed element is the `ParseElement` result of its raw object, and the tag objects are exactly what iterating `feature.get("tags", [])` visits, in order, so `"tags": ""` and `"tags": {}` give no tags |
| `Report.Parse` | app.py:100-127 | the report parses exactly when the top-level value iterates over feature objects and every one of them parses; each parsed feature corresponds to its input object, in order |
| `Wrappers.Traverse` | app.py:100-104 | mapping a fallible step over a list succeeds exactly when it succeeds on every item, and then gives one result per item, in order |
| `StatusResolver.StatusNameInjective` | app.py:80-86 | the four status strings `"failed"`, `"skipped"`, `"passed"`, `"unknown"` are distinct, so a record's status string determines the status; `ScenarioRecordOf` uses it |
| `StatusResolver.Resolve` | app.py:80-86 | failed iff some step status is `"failed"`; skipped iff none is `"failed"` and some is `"skipped"`/`"pending"`/`"undefined"`; passed iff the list is non-empty and has none of those four; unknown iff the list is empty |
| `StatusResolver.ResolveIsWorstOf` | app.py:80-86 | the membership tests agree with an independent definition that combines the steps' verdicts one at a time by priority, starting from unknown |
| `StatusResolver.ResolveConcat` | app.py:80-85 | the status of two step lists put together is the higher-priority of their statuses, so one failed step makes the scenario failed whatever surrounds it |
| `StatusResolver.ResolvePermutation` | app.py:79-86 | reordering the steps never changes the status |
| `StatusResolver.DefaultedStepsPass` | app.py:79-85 | a non-empty list of steps that all defaulted to `"unknown"` resolves to passed |
| `Summarizer.StatusOf` | app.py:104-105 | the status of one parsed element, `_scenario_status` of its (defaulted) steps: unknown exactly when it has no steps, failed exactly when some step reports `"failed"`; `Resolve` and its lemmas give the other two cases |
| `Summarizer.ElementsPartition` | app.py:105-113 | over one feature's elements, the counts of the four statuses add up to the number of elements |
| `Summarizer.ScenariosPartition` | app.py:103-113 | over a whole report, the counts of the four statuses add up to the number of scenarios |
| `Summarizer.Tally` | app.py:106-113 | the expected summary: `passed + failed + skipped == scenarios`, and the skipped counter is the skipped scenarios plus the unknown ones |
| `Summarizer.ScenariosWithPositive` | app.py:108-113 | the count for a status is positive exactly when some scenario of some feature resolves to it |
| `Summarizer.ScenariosPositive` | app.py:103-106 | the scenario counter is positive exactly when some feature has an element |
| `Summarizer.TruthyNames` | app.py:127 | every kept tag name is truthy, and no more names are kept than there are tags |
| `Summarizer.TruthyNamesMembers` | app.py:127 | a value is kept exactly when it is the truthy `name` of some tag: a tag whose name is missing or falsy contributes nothing |
| `Summarizer.TruthyNamesConcat` | app.py:127 | filtering tags distributes over concatenation, so the kept names keep their input order |
| `Summarizer.TruthyNamesKeepsAll` | app.py:127 | when every tag name is truthy, all names are kept, in order |
| `Summarizer.ScenarioRecordOf` | app.py:114-120 | the record appended for one element: its name, or `"Unnamed scenario"` when the key is absent; the status string is `"unknown"` exactly when there are no steps and `"failed"` exactly when some step reports `"failed"`; one step object per step, in order. `CountElements` is proved against it |
| `Summarizer.FeatureRecordOf` | app.py:123-130 | the record appended for one feature: its name or `"Unnamed feature"`, its description or `""` when those keys are absent, at most as many tag names as tags (`TruthyNames` says which), and one `ScenarioRecordOf` per element, in order |
| `Summarizer.Records` | app.py:98-130 | the feature list: one `FeatureRecordOf` per input feature, in order. `Summarize` and `SummarizeReport` are proved against it |
| `Summarizer.CountElements` | app.py:103-120 | the inner loop over one feature's elements: the counters grow by the number of elements, their steps, and the scenarios resolving to passed, to failed, and to anything else; the scenario list holds one record per element in order, with its name or `"Unnamed scenario"`, the name of its resolved status (`Status.Name`) and its step objects, i.e. `ScenarioRecordOf` of the element |
| `Summarizer.Summarize` | app.py:89-132 | the counters equal `Tally`: features is the number of features, scenarios the total of the element lists, steps the total of the step lists, passed/failed the scenarios resolving so, skipped the rest; the feature list has one record per input feature in order, built from the accumulated scenario list, with default name and description and the truthy tag names |
| `Summarizer.SummarizeReport` | app.py:89-132 | on a JSON document, fails exactly when parsing fails, and otherwise returns `Tally` and `Records` of the parsed report |
| `BuildStatus.OverallStatus` | app.py:58-63 | failed iff `failed > 0`; skipped iff `failed == 0 && skipped > 0 && passed == 0`; passed otherwise |
| `BuildStatus.UploadStatus` | app.py:175-179 | the string the upload handler computes by "default then overwrite" is the name of the build list's if/elif/else verdict (`OverallStatus`, app.py:58-63) on every summary |
| `BuildStatus.VerdictNameInjective` | app.py:59-63 | the three overall-status strings are distinct, so the stored string determines the verdict |
| `BuildStatus.ReportVerdict` | app.py:57-63 | a report's overall status is failed iff some step anywhere reports `"failed"`, and skipped iff there is at least one scenario and none resolves to failed or passed |
| `SafeId.Cleaned` | app.py:25 | the substituted and stripped text has only `[A-Za-z0-9_-]`, no dash at either end, the same letters/digits/underscores as the input in the same order, and is empty iff the input has none |
| `SafeId.Sanitize` | app.py:24-26 | the identifier is never empty, has only `[A-Za-z0-9_-]` and no dash at either end; it is the cleaned text, or the UUID when that is empty |
| `SafeId.ReplaceRuns` | app.py:25 | `re.sub(r"[^a-zA-Z0-9_-]+", "-", raw)`: the output is never longer than the input and is empty exactly when the input is; `ReplaceRunsSplit`, `ReplaceRunsAllowedChars` and `ReplaceRunsWordChars` give its other properties |
| `SafeId.TrimStart` | app.py:25 | the left half of `.strip("-")`: the result is empty or does not start with a dash |
| `SafeId.TrimEnd` | app.py:25 | the right half of `.strip("-")`: the result is empty or does not end with a dash |
| `SafeId.Strip` | app.py:25 | `.strip("-")`: the result has no dash at either end and keeps the same letters, digits and underscores, in order |
| `SafeId.ReplaceRunsSplit` | app.py:25 | every maximal run of disallowed characters becomes exactly one dash: splitting the input at such a run splits the output at one `-` |
| `SafeId.ReplaceRunsAllowedChars` | app.py:25 | the substitution leaves only characters of `[A-Za-z0-9_-]` |
| `SafeId.ReplaceRunsWordChars` | app.py:25 | the substitution keeps every letter, digit and underscore, in order, and adds none |
| `SafeId.CleanedIsClean` | app.py:25 | substituting and then stripping dashes leaves no dash at either end |
| `SafeId.FallbackIff` | app.py:25-26 | the UUID fallback is taken exactly when the input has no letter, digit or underscore |
| `SafeId.CleanIsFixed` | app.py:25 | a clean string passes through substitution and stripping unchanged |
| `SafeId.SanitizeIdempotent` | app.py:24-26 | sanitising an identifier it produced gives the same identifier back, whatever UUID the second call would draw |
| `EndToEnd.SinglePassedStep` | app.py:89-132 | one feature with one scenario with one passed step: 1 feature, 1 scenario, 1 passed, 1 step; overall passed |
| `EndToEnd.FailedAndPassedScenarios` | app.py:89-132 | a failed scenario and a passed scenario: 1 passed, 1 failed, 2 steps; overall failed |
| `EndToEnd.SingleSkippedStep` | app.py:58-63 | a single skipped step and nothing passed: overall skipped |
| `EndToEnd.FeatureWithoutElements` | app.py:101-130 | a feature object without `elements`: no scenarios, `"Unnamed feature"`, empty description, no tags, no error; overall passed |
| `EndToEnd.ScenarioWithoutSteps` | app.py:104-116 | a scenario object without `steps`: status unknown, counted as skipped, named `"Unnamed scenario"`; overall skipped |

## Left out

- Flask routing, request parsing, redirects, `jsonify` and template rendering (`app.py:135-239`): framework plumbing with no logic of its own.
- Reading and writing `cucumber.json` and `metadata.json`, and listing build directories (`_load_metadata`, `_load_cucumber`, `_list_builds`): file-system I/O. The summariser takes the already-loaded document as a parameter.
- JSON parsing itself: the model starts from a parsed tree. An object is a map, because after parsing a later duplicate key has already replaced an earlier one, and key order only affects iteration, which raises on any non-empty object. Objects copied into the records (names, descriptions, step objects) therefore lose the key order Python would keep.
- The kind of exception (`AttributeError` or `TypeError`): every failure is the one outcome `None`, since none of them is caught inside the summariser.
- Timestamp parsing and formatting, and the sort by `created_at` in the build list (`app.py:47-54, 66, 190, 207-214`): library calls with no bearing on the summary.
- UUID generation (`app.py:26, 155`): nondeterministic. `SafeId.Sanitize` takes the UUID that `uuid4()` would produce as its `fallback` parameter, required to have the textual form of a version-4 UUID.
- The choice of identifier seed in the upload handler (`app.py:151-155`): request plumbing around `_safe_id`.
- Numbers: a JSON number is a `real`. The counting only asks whether a number is zero, but names, descriptions and step objects are copied into the records unchanged, and there the model does not keep Python's distinction between `1` and `1.0`, nor the non-finite values `NaN`, `Infinity` and overflowing literals that `json.loads` produces.
- Calling the summariser twice on the same report gives the same result: Dafny functions and this method are deterministic, so no separate lemma states it.
- Strings: `SafeId.Sanitize` takes a string. The upload handler passes it `payload.get("build_id")` (`app.py:146, 152`), which from a JSON body can be a number, list or object, and then `re.sub` raises `TypeError`; the model does not cover that path. A Dafny `char` is a Unicode scalar value, while a Python `str` can hold lone surrogates such as `"\ud800"` (which `json.loads` accepts), so names, statuses and build identifiers containing them are not modelled.
- Server start-up (`app.py:242-244`).
