# classbox task pipeline in Dafny

This project models the core of classbox's grading pipeline. A worker claims a
task, runs a candidate's tests and reports the results:

- **Data model** (`pkg/api/models/models.go`, module `Models`). A task holds
  stages and runs. `Stage.FillFromRun` derives a test stage from a run.
  `Run.CompareToBaseline` is the baseline performance gate. `Task.ReportSystemError`
  appends the opaque system-error stage a candidate sees for an infrastructure fault.
- **Worker orchestration** (`pkg/runner/tasks.go`, module `Runner`). `runTask`
  cleans the workspace, appends the build stages, creates and executes the test
  store, and turns every artifact into one stage, plus one run when the artifact
  has one. `finishTask` submits the runs and then reports the stages.
- **`UniqueStrings`** (`pkg/api/utils/utils.go`, module `Utils`). It
  de-duplicates one string field over a list of records, keeping first occurrences.

Two support modules complete the project. `Options` holds the optional values
that Go writes as nil pointers. `Decimal` renders and parses the decimal numbers
in the performance text.

`Stage`, `Run` and `Task` are classes, because Go updates them in place through
pointers. Their methods are proved against value-level functions on
`StageValue` and `RunValue`: `FilledFromRun`, `Compared` and `SystemErrorStage`.
The properties of the source are lemmas about those functions. The runner's
artifact loop is proved against `ArtifactStages` and `RunsOf`, which are the
stages and runs that the first n artifacts give. Lemmas then show what those
contain.

The Go integer type of scores is `uint64`. The model keeps its wrap-around
explicitly: `Percent` computes `r.Score * 1000 / b.Score` modulo 2^64, as the
code does.

Where the system's design description and the code disagree, the model follows
the code:
- The description says the percentage is rounded. The code truncates (integer
  division), so `ExactPercent` and `Percent` truncate.
- The description sends a failed workspace reset to a system-exception stage.
  The code returns the error without adding any stage.
- The description has the worker look up a baseline and score each run before
  deriving its stage. `runTask` does no baseline comparison; `CompareToBaseline`
  is never called in the code modelled here.

## Model

| member | source | states |
|---|---|---|
| Models.Stage.FillFromRun | pkg/api/models/models.go:26-31 | The stage's new fields are exactly `FilledFromRun` of its old fields: name `stageName::test`; status, test and output copied from the run; run hash and cached flag kept |
| Models.FilledNameSplits | pkg/api/models/models.go:27 | The derived name splits back into the step name, the `::` separator and the run's test id |
| Models.FilledIgnoresPriorContent | pkg/api/models/models.go:26-31 | Filling depends only on the step name and the run, apart from the run hash and cached flag, which are left as they were |
| Models.FilledSucceedsIffRunSucceeded | pkg/api/models/models.go:26-35 | A stage filled from a run is a success (`status == "success"`) exactly when the run's status is "success" |
| Models.Task.ReportSystemError | pkg/api/models/models.go:80-93 | Exactly one stage is appended after the unchanged earlier stages: `SystemErrorStage(test)`. The runs are unchanged |
| Models.SystemErrorStageIsException | pkg/api/models/models.go:87-92 | The system-error stage has status "exception", carries the test id, has no run hash and is never a success |
| Models.SystemErrorNameIdentifiesTest | pkg/api/models/models.go:81-86 | Two system-error stages with the same name were reported for the same test ("system" only when no test is known) |
| Models.SystemErrorNameMatchesTestStage | pkg/api/models/models.go:85 | For a known test, the system-error stage has the same name as the stage `FillFromRun("test", …)` derives for that test |
| Models.ExactPercent | pkg/api/models/models.go:62 | The exact percentage in tenths is the truncated quotient: the p with `p*b <= s*1000 < (p+1)*b` |
| Models.Percent | pkg/api/models/models.go:62 | The uint64 computation equals the exact truncated percentage whenever `score*1000` fits in 64 bits, and never exceeds the wrapped product |
| Models.ParsePerformanceText | pkg/api/models/models.go:63-64 | The text "Performance: X.Y% of baseline" reads back to the percentage in tenths it was written from |
| Models.Run.CompareToBaseline | pkg/api/models/models.go:58-70 | The run's new fields are `Compared(old run, baseline)`, and equal those of the exact gate `ComparedExact` whenever `score*1000` fits in 64 bits. A distinct baseline run is not modified. A scored run with a zero baseline score is excluded, because Go panics on division by zero |
| Models.CompareUnscoredIsNoOp | pkg/api/models/models.go:59-61 | A run with score 0 is left completely unchanged |
| Models.CompareChangesOnlyVerdict | pkg/api/models/models.go:58-70 | Only status and output can change; hash, score, test and baseline flag are kept |
| Models.CompareIdempotent | pkg/api/models/models.go:58-70 | Comparing a second time against the same baseline changes nothing |
| Models.CompareReportsPercent | pkg/api/models/models.go:62-69 | For a scored run, status is "failure" iff the percentage exceeds 1200 tenths and "success" otherwise, and the output parses back to that percentage |
| Models.CompareVerdict | pkg/api/models/models.go:62-69 | Without wrap-around, a scored run fails iff `score*1000 >= 1201*baseline` and succeeds iff `score*1000 < 1201*baseline` |
| Models.GateBoundary | pkg/api/models/models.go:65-69 | 1200/1000 (120.0%) passes and 1201/1000 (120.1%) fails |
| Models.ScenarioEqualScore | pkg/api/models/models.go:58-70 | Candidate 100 against baseline 100 gives "Performance: 100.0% of baseline" and status "success" |
| Models.ScenarioSlowCandidate | pkg/api/models/models.go:58-70 | Candidate 130 against baseline 100 gives "Performance: 130.0% of baseline" and status "failure" |
| Models.ScenarioAtThreshold | pkg/api/models/models.go:58-70 | Candidate 120 against baseline 100 gives "Performance: 120.0% of baseline" and status "success" |
| Models.PercentOverflowPassesSlowCandidate | pkg/api/models/models.go:62 | As written, score 18446744073709551 against baseline 1 fails, but the larger score 18446744073709552 wraps to 38.4% and passes |
| Models.ExactPercentMonotone | pkg/api/models/models.go:62 | The exact percentage never decreases as the score grows |
| Models.ComparedExactAgrees | pkg/api/models/models.go:58-70 | While `score*1000` fits in 64 bits, the code's verdict and output equal those of the exact gate |
| Models.ComparedExactMonotone | pkg/api/models/models.go:65-69 | With the exact percentage, a larger score never turns a failure into a success |
| Decimal.Digits | pkg/api/models/models.go:64 | The rendering of the whole percent is non-empty, all digits, with no leading zero unless it is 0 |
| Decimal.ParseDigitsOfDigits | pkg/api/models/models.go:64 | Parsing a decimal rendering gives back the number |
| Decimal.DigitsInjective | pkg/api/models/models.go:64 | Distinct numbers render differently |
| Runner.RunTask | pkg/runner/tasks.go:22-59 | A failed workspace clean returns an error and leaves stages and runs unchanged. Otherwise the build stages follow the old stages in order. A failed store creation or execution adds exactly one `SystemErrorStage("")` and no run. Success adds `ArtifactStages` and `RunsOf` of all artifacts and returns no error |
| Runner.RecordArtifacts | pkg/runner/tasks.go:48-57 | The loop appends exactly the stages and runs of all the artifacts, in artifact order |
| Runner.RecordArtifact | pkg/runner/tasks.go:49-56 | One artifact appends its stage, and its run when it has one; nothing else changes |
| Runner.ArtifactStages | pkg/runner/tasks.go:48-57 | The loop appends exactly one stage per artifact |
| Runner.ArtifactStagesAt | pkg/runner/tasks.go:48-57 | The k-th appended stage is derived from the k-th artifact |
| Runner.ArtifactStageKinds | pkg/runner/tasks.go:49-56 | An artifact without a run yields the system-error stage for its test. One with a run yields a stage named `test::<test>` that carries the run's output, has no run hash, and succeeds exactly when the run did |
| Runner.RunsOf | pkg/runner/tasks.go:53 | The number of runs appended is the number of artifacts minus those without a run |
| Runner.RunsOfMembers | pkg/runner/tasks.go:49-53 | A run is appended exactly when some artifact carries it |
| Runner.NoneMissingIffAllRan | pkg/runner/tasks.go:49-51 | No artifact is counted as missing exactly when every artifact has a run |
| Runner.RunsInArtifactOrder | pkg/runner/tasks.go:53 | When every artifact has a run, the k-th appended run is the k-th artifact's run |
| Runner.ExceptionStagesAreMissingRuns | pkg/runner/tasks.go:48-57 | If no run itself has status "exception", the appended exception stages are exactly one per artifact without a run |
| Runner.OneRunOneMissing | pkg/runner/tasks.go:48-57 | A passing artifact followed by one without a run gives a passing test stage, one system-exception stage and one run |
| Runner.FinishTask | pkg/runner/tasks.go:10-20 | The runs are submitted first and the stage report is always sent afterwards, whatever became of the submission. The task counts as finished exactly when the report is accepted |
| Utils.UniqueStrings | pkg/api/utils/utils.go:5-18 | The result is `FirstOccurrences` of the records' field values |
| Utils.FirstOccurrences | pkg/api/utils/utils.go:7-16 | The result is no longer than the input; no records give no values |
| Utils.FirstOccurrencesNoDuplicates | pkg/api/utils/utils.go:11-15 | The result has no duplicate strings |
| Utils.FirstOccurrencesMembers | pkg/api/utils/utils.go:10-16 | A string is in the result exactly when it is the field value of some record |
| Utils.CollectedFirstOccursBefore | pkg/api/utils/utils.go:10-16 | Each value collected after n records first occurs among those n records |
| Utils.FirstOccurrencesOrdered | pkg/api/utils/utils.go:10-16 | The result is ordered by first occurrence in the input |
| Utils.FirstOccurrencesOfUnique | pkg/api/utils/utils.go:12-15 | A list without duplicates comes back unchanged |
| Utils.FirstOccurrencesIdempotent | pkg/api/utils/utils.go:12-15 | De-duplicating a result again changes nothing |
| Utils.UniqueStringsExample | pkg/api/utils/utils.go:5-18 | Values a, b, a, c, b give a, b, c; an empty input gives an empty result |

## Left out

- Models.Task: a task stores the field values of its stages and runs, where Go stores pointers. A change made through such a pointer after the append is therefore not reflected. `runTask` makes no such change.
- Models.Stage.FillFromRun: takes the run's field values rather than a pointer, because it only reads the run.
- Models.PerformanceText: Go prints `float64(percent) / 10` with `%.1f`. The model writes the integer tenths exactly. The two agree while the percentage in tenths is below 10·2^49 = 5629499534213120. From there on, float64 values of `percent / 10` are 0.125 apart and Go can print the wrong last digit, for example "562949953421333.2%" where the model writes "562949953421333.3%" (score 16888498602640 against baseline 3). That float rounding is not modelled.
- Models.Run.CompareToBaseline: Go panics when a scored run is compared with a baseline whose score is 0. The model excludes that call by a precondition.
- Runner.RunTask: the workspace clean, the container build, store creation and store execution are not modelled. Their outcomes are inputs: a flag, the build stages, and an `Execution` value. The wrapped error values are reduced to which step failed.
- Runner.FinishTask: the queue service's answers are inputs. The HTTP client, its context and the log lines are not modelled.
- Runner.Artifact: an artifact's run is its field values, so the model does not capture the engine and the task sharing one run object.
- Utils.UniqueStrings: the field is a projection function, so the outcomes of Go's reflective lookup by name are not modelled. A struct without the named field gives the zero `reflect.Value`, whose `String()` is "<invalid Value>", so each such record contributes that string. A non-string field is rendered as `<T Value>`. The lookup panics when the elements are not structs (a slice of pointers such as `[]*Stage`, for example), and when the argument is not a slice, array or string that `Len` and `Index` accept.
- The worker's polling loop, task claiming, idling, cancellation, the HTTP and GitHub clients, the web UI and the record types without behaviour (`Test`, `Commit`, `Stat`) are outside this model.

## Findings

| source | as written | input that shows it | evidently intended | confidence | as-written member | corrected member |
|---|---|---|---|---|---|---|
| pkg/api/models/models.go:62 | `r.Score * 1000 / b.Score` is computed in uint64, so the product wraps modulo 2^64 for scores above about 1.8e16 | candidate score 18446744073709552, baseline score 1: the product wraps to 384, giving "38.4%" and "success", while score 18446744073709551 fails | the exact truncated percentage, so a larger score never passes where a smaller one fails | not executed | Models.PercentOverflowPassesSlowCandidate | Models.ComparedExactMonotone |
