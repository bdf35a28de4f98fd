# simpleRender batch bookkeeping, in Dafny

This project models what `main()` of `jobs/Scripts/simpleRender.py` does to a
batch of render test cases once the tests list has been loaded, and proves
properties of it.

- **Preparation pass.** For every test record the script builds a pessimistic
  "predefined" report. It copies the `RENDER_REPORT_BASE` template and fills in
  the fields derived from the case. Its status is Ignore when
  `is_case_skipped` holds for the current machine configuration, and Crash
  otherwise.
- **Baseline copy.** Unless the update mode contains `"Update"`, the pass
  copies the case's reference report and its images from the shared baseline
  store into the local baseline directory. Every failure there is swallowed.
- **Ignored cases.** An ignored case also gets `group_timeout_exceeded =
  false`, and its own `status` is overwritten with Ignore.
- **Files written.** The pass copies an image stub and writes the report as a
  one-element list. After the loop it persists the tests list.
- **Run pass.** It selects the records whose `status` is `'active'` and that
  are not skipped, in list order. For each one it runs the retry loop, whose
  attempt is not written yet. It then rewrites the report file with the
  report's first element, writes the loop's status back into the record and
  persists the tests list.

The model has three layers:

- `RenderSpec` states the batch as functions over a `State`. A `State` holds
  the in-memory tests list, the output directory and the local baseline
  directory, each directory being a map from relative path to file contents.
  The functions are the preparation loop (`PrepareCase`, `PrepareFrom`,
  `Prepare`), the selection (`SelectFrom`), the retry loop (`RetryLoop`) and
  the run loop (`RunCase`, `RunFrom`, `RunPass`). Both loops end in an
  `Outcome`: the pass either completed, or an uncaught exception stopped it at
  a given case.
- `RenderFacts` proves what the script promises about those functions.
- `SimpleRender.Batch` is the script itself, written imperatively. It is a
  class whose fields are the tests list and the two directories, and its
  methods update them in place with the script's loops. Each method is proved
  to compute the corresponding `RenderSpec` function, so every lemma of
  `RenderFacts` holds of the methods too.

Names the script imports from `jobs_launcher.core.config` are parameters, held
in `Config`: `RENDER_REPORT_BASE`, the statuses, `CASE_REPORT_SUFFIX`,
`THUMBNAIL_PREFIXES` and `engine`. What the script gets from its machine and
command line is another parameter, held in `Env`:

- the configuration set, the render device, the test group, the retry count
  and the update mode;
- the clock, as a function of the case index;
- `is_case_skipped`, as an uninterpreted function;
- the shared baseline store and the stub images.

## Model

| member | source | states |
|---|---|---|
| `Text.Contains` | jobs/Scripts/simpleRender.py:101 | `sub in s` is true exactly when `sub` occurs in `s` at some offset |
| `Text.ShiftOccurrence` | jobs/Scripts/simpleRender.py:101 | away from offset 0, an occurrence in `s` is an occurrence in `s[1..]` one place earlier, and back |
| `Documents.FirstElement` | jobs/Scripts/simpleRender.py:147 | definition: `json.loads(text)[0]` yields the first element of an array or the first character of a string and raises on anything else; used by `RenderSpec.RunCase`, whose properties `RenderFacts.RunCaseKeeps` proves |
| `RenderSpec.WellFormed` | jobs/Scripts/simpleRender.py:80-97 | definition: the record has string `name` and `file_ext` and has `scene_sub_path`, `script_info` and `render_time`; `RenderFacts.PrepareAbortsAtFirstMalformed` proves the pass raises exactly without it |
| `RenderSpec.PredefinedStatus` | jobs/Scripts/simpleRender.py:77-78 | definition: Ignore when `is_case_skipped` holds, Crash otherwise; `RenderFacts.PreparedStatuses` and `RenderFacts.PredefinedReportFields` prove its effect |
| `RenderSpec.DictUpdate` | jobs/Scripts/simpleRender.py:87-98 | definition of `dict.update`, entry by entry; `RenderFacts.DictUpdateElsewhere`, `DictUpdateLast` and `DictUpdateKeys` prove what it yields |
| `RenderSpec.CaseReport` | jobs/Scripts/simpleRender.py:76-98 | definition: a copy of the template updated with the eleven derived fields; `RenderFacts.CaseReportKeys` and `CaseReportFields` state its keys and values |
| `RenderSpec.PredefinedReport` | jobs/Scripts/simpleRender.py:76-118 | definition: the case report, with `group_timeout_exceeded = false` for an ignored case; `RenderFacts.PredefinedReportFields` states it |
| `RenderSpec.Prepared` | jobs/Scripts/simpleRender.py:117-119 | definition: an ignored record has its `status` overwritten with Ignore; `RenderFacts.PreparedStatuses` proves the loop applies it to every record and only there |
| `RenderSpec.CopyStub` | jobs/Scripts/simpleRender.py:120-125 | definition: the stub `<status><file_ext>` is copied to `Color/<name><file_ext>` when it exists, and otherwise nothing happens; `RenderFacts.BaselineNeverAffectsReports` and `PrepareCaseKeepsReports` use it |
| `RenderSpec.CopyThumbs` | jobs/Scripts/simpleRender.py:109-112 | the thumbnail loop only adds files of the shared store, under their own paths; what it copies and where it stops is stated by `RenderFacts.CopyThumbsCopies` and `RenderFacts.CopyThumbsStops` |
| `RenderSpec.CopyBaseline` | jobs/Scripts/simpleRender.py:101-115 | the baseline directory only receives files of the shared store under their own paths, and the case's reference report whenever the store has it; the images that report names are covered by `RenderFacts.CopyBaselineImages` |
| `RenderSpec.PrepareCase` | jobs/Scripts/simpleRender.py:75-128 | one preparation iteration; it fails, changing nothing, on a record lacking a key it reads, and otherwise keeps the length of the tests list; its effects are proved by `RenderFacts.PreparedStatuses`, `RenderFacts.PreparedReports` and `RenderFacts.BaselineCopyGate` |
| `RenderSpec.PrepareFrom` | jobs/Scripts/simpleRender.py:75-128 | definition of the preparation loop from case `i`; `RenderFacts.PrepareFromInvariant` is its induction principle |
| `RenderSpec.Prepare` | jobs/Scripts/simpleRender.py:75-131 | definition: the loop, then the tests list persisted; its properties are proved by `RenderFacts.PrepareAbortsAtFirstMalformed`, `PreparedStatuses`, `PreparedReports` and `BaselineCopyGate` |
| `RenderSpec.Runnable` | jobs/Scripts/simpleRender.py:134 | definition of the comprehension's filter: `status` is `'active'` and the case is not skipped; `RenderFacts.SelectionAfterPrepare` relates it to the original records |
| `RenderSpec.SelectFrom` | jobs/Scripts/simpleRender.py:134 | the comprehension raises exactly when a record has no `status`, at the first such record; otherwise it yields increasing indices, and an index is in it exactly when its record is `'active'` and not skipped |
| `RenderSpec.RetryLoop` | jobs/Scripts/simpleRender.py:137-141 | definition of the retry loop from a counter and status; `RenderFacts.RetryLoopExhausts` gives its closed form |
| `RenderSpec.RunCase` | jobs/Scripts/simpleRender.py:146-155 | one run iteration keeps the length of the tests list |
| `RenderSpec.RunFrom` | jobs/Scripts/simpleRender.py:134-155 | definition of the run loop over the selected cases; `RenderFacts.RunFromInvariant` is its induction principle |
| `RenderSpec.RunPass` | jobs/Scripts/simpleRender.py:134-155 | definition: select, then run; its properties are proved by `RenderFacts.RunPassStatuses`, `RunPassKeepsReports` and `RunPassPersists` |
| `RenderSpec.RunBatch` | jobs/Scripts/simpleRender.py:75-157 | definition: preparation, then the run pass; its properties are proved by `RenderFacts.BatchCompletes`, `BatchStatuses` and `BatchReports` |
| `RenderFacts.DictUpdateElsewhere` | jobs/Scripts/simpleRender.py:87-98 | `dict.update` leaves every key that no entry names as it was |
| `RenderFacts.DictUpdateLast` | jobs/Scripts/simpleRender.py:87-98 | `dict.update` gives a key the value of the last entry naming it |
| `RenderFacts.DictUpdateKeys` | jobs/Scripts/simpleRender.py:87-98 | `dict.update` yields the keys of the dictionary plus those of the entries |
| `RenderFacts.CaseReportKeys` | jobs/Scripts/simpleRender.py:76-98 | the report has the template's keys plus the derived ones, and every key the case does not fill keeps the template's value (the template is copied, not changed) |
| `RenderFacts.CaseReportFields` | jobs/Scripts/simpleRender.py:87-98 | the report holds each of the eleven derived fields with the case's value: `test_case = name`, `file_name = name + file_ext`, `render_color_path = "Color/" + name + file_ext`, `scene_name = scene_sub_path`, `testcase_timeout = render_time`, `test_group`, and the rest |
| `RenderFacts.PredefinedReportFields` | jobs/Scripts/simpleRender.py:76-118 | the predefined report has exactly the template's keys, the derived keys and, for an ignored case, `group_timeout_exceeded`; it holds the derived fields with the predefined status; an ignored case's report has `group_timeout_exceeded = false`; every other key keeps the template's value |
| `RenderFacts.PrepareFromInvariant` | jobs/Scripts/simpleRender.py:75-128 | an invariant that every successful iteration preserves holds where the preparation loop ends, and an abort happens on a case whose iteration fails |
| `RenderFacts.PrepareCaseReadable` | jobs/Scripts/simpleRender.py:80-97 | an iteration succeeds exactly when its record has every key it reads, and it leaves the later records alone |
| `RenderFacts.PrepareAbortsAtFirstMalformed` | jobs/Scripts/simpleRender.py:75-98 | the preparation pass completes exactly when every record has the keys it reads; otherwise it stops at the first record that does not |
| `RenderFacts.PrepareCaseStatus` | jobs/Scripts/simpleRender.py:117-119 | a successful iteration prepares its own record and no other |
| `RenderFacts.PreparedStatuses` | jobs/Scripts/simpleRender.py:77-119 | after preparation the list keeps its length and order; a skipped case has `status` overwritten with Ignore and every other record is unchanged |
| `RenderFacts.PrepareCaseKeepsReports` | jobs/Scripts/simpleRender.py:120-128 | with distinct output paths, an iteration writes its own report and keeps every earlier report file |
| `RenderFacts.PrepareFromReports` | jobs/Scripts/simpleRender.py:75-128 | with distinct output paths, the preparation loop completes with the predefined report of every case in its report file |
| `RenderFacts.PreparedReports` | jobs/Scripts/simpleRender.py:75-131 | when every record has the keys the pass reads and the output paths are distinct, preparation completes, every case's report file holds exactly one element, its predefined report, and the persisted tests list is the in-memory one |
| `RenderFacts.MirrorsTransitive` | jobs/Scripts/simpleRender.py:101-115 | two successive baseline copies still only hold files of the shared store under their own paths |
| `RenderFacts.CopyThumbsCopies` | jobs/Scripts/simpleRender.py:109-112 | when every key up to the `t`-th prefix names a path and the `t`-th image exists in the shared store, that image is copied under its own path |
| `RenderFacts.CopyThumbsStops` | jobs/Scripts/simpleRender.py:109-113 | a key that is missing or names no string path ends the thumbnail loop: the copy equals the loop over the earlier prefixes only |
| `RenderFacts.CopyBaselineImages` | jobs/Scripts/simpleRender.py:101-115 | for a reference report that is a JSON dictionary, the baseline copy copies each named image that exists, prefix by prefix, and stops at the first missing or non-string key |
| `RenderFacts.PrepareCaseBaseline` | jobs/Scripts/simpleRender.py:101-115 | an iteration copies its own reference report and keeps the earlier copies |
| `RenderFacts.BaselineCopyGate` | jobs/Scripts/simpleRender.py:101-115 | in update mode the baseline directory is untouched; otherwise every case whose reference report exists has it copied; either way only files of the shared store arrive there |
| `RenderFacts.PrepareCaseIgnoresBaseline` | jobs/Scripts/simpleRender.py:101-115 | an iteration succeeds or fails, and writes the tests list and the output directory, the same way whatever the shared store, the update mode and the baseline directory |
| `RenderFacts.PrepareFromIgnoresBaseline` | jobs/Scripts/simpleRender.py:75-128 | the same holds of the whole preparation loop |
| `RenderFacts.BaselineNeverAffectsReports` | jobs/Scripts/simpleRender.py:101-115 | a baseline copy, failed or not, never aborts the batch and never changes the tests list or any report |
| `RenderFacts.SelectionAfterPrepare` | jobs/Scripts/simpleRender.py:134 | after preparation the run pass selects, in list order, exactly the cases that were `'active'` and are not skipped; it never selects a skipped case; the selection raises exactly when a case that is not skipped has no `status` |
| `RenderFacts.RetryLoopExhausts` | jobs/Scripts/simpleRender.py:137-141 | started at 0 on the crash status, the retry loop runs `max(retries, 0)` times and ends on Crash; on any other status it stops at once |
| `RenderFacts.RunFromInvariant` | jobs/Scripts/simpleRender.py:134-155 | an invariant that every successful run iteration preserves holds where the run loop ends, and an abort happens on a selected case whose iteration fails; the list keeps its length |
| `RenderFacts.RunCaseStatus` | jobs/Scripts/simpleRender.py:153 | a run iteration writes the loop's status into its own record and no other |
| `RenderFacts.RunPassStatuses` | jobs/Scripts/simpleRender.py:134-155 | a completed run pass keeps the list's length and order, sets every selected case's status to Crash and leaves every other record unchanged |
| `RenderFacts.RunCaseKeeps` | jobs/Scripts/simpleRender.py:146-151 | a run iteration on a one-element report succeeds and leaves the report file as it was |
| `RenderFacts.RunPassKeepsReports` | jobs/Scripts/simpleRender.py:146-151 | when every selected case has a named one-element report, the run pass completes, the baseline directory is untouched and every file but the tests-list copy ends exactly as it was |
| `RenderFacts.RunPassPersists` | jobs/Scripts/simpleRender.py:153-155 | the persisted tests list equals the in-memory one after the run pass, whether it completes or stops |
| `RenderFacts.PreparedRecords` | jobs/Scripts/simpleRender.py:117-134 | with distinct constants and records that have every key the pass reads, a prepared record keeps its name and report path, is selected exactly when the original would be, and running it yields the final record |
| `RenderFacts.PreparedRewritable` | jobs/Scripts/simpleRender.py:127-147 | when every record has the keys the pass reads and the output paths are distinct, every case the run pass selects after preparation has a named, readable one-element report that is not the tests-list copy |
| `RenderFacts.BatchCompletes` | jobs/Scripts/simpleRender.py:75-157 | with distinct constants and output paths, the batch completes (exit status 0) exactly when every record has the keys the preparation pass reads and every case that is not skipped has a `status` |
| `RenderFacts.BatchStatuses` | jobs/Scripts/simpleRender.py:75-155 | with distinct constants, after a completed batch each skipped case is Ignore, each active case that is not skipped is Crash, and every other record is unchanged |
| `RenderFacts.BatchReports` | jobs/Scripts/simpleRender.py:75-155 | with distinct output paths, after a completed batch every record had its keys, every report file holds its case's predefined one-element report and the persisted list is the final list |
| `SimpleRender.Retry` | jobs/Scripts/simpleRender.py:137-141 | the while loop computes `RetryLoop` from 0 on Crash: `max(retries, 0)` attempts, ending on Crash |
| `SimpleRender.Batch.constructor` | jobs/Scripts/simpleRender.py:37-47 | the batch starts with the loaded list, and its copy as `test_cases.json` in the output directory |
| `SimpleRender.Batch.CopyBaselineFor` | jobs/Scripts/simpleRender.py:101-115 | the in-place baseline copy of one case, with its thumbnail loop, computes `CopyBaseline`, so `RenderFacts.CopyBaselineImages` holds of it |
| `SimpleRender.Batch.PrepareOne` | jobs/Scripts/simpleRender.py:76-128 | one iteration of the preparation loop, in place, computes `PrepareCase`; it reports failure and changes nothing on a record lacking a key |
| `SimpleRender.Batch.PrepareLoop` | jobs/Scripts/simpleRender.py:75-128 | the preparation loop, in place, ends as `PrepareFrom` does: at the case it raised on, or completed |
| `SimpleRender.Batch.PersistTests` | jobs/Scripts/simpleRender.py:130-131 | `test_cases.json` is overwritten with the current list and nothing else changes |
| `SimpleRender.Batch.PrepareCases` | jobs/Scripts/simpleRender.py:75-131 | the preparation pass, in place, computes `Prepare` |
| `SimpleRender.Batch.RunCases` | jobs/Scripts/simpleRender.py:134-155 | the selection and the run loop, in place, compute `RunPass` |
| `SimpleRender.Batch.Execute` | jobs/Scripts/simpleRender.py:74-157 | `main()` after loading leaves the state `RunBatch` gives and returns its exit status: 0 when it completes, 1 when an exception escapes |

## Left out

- Argument parsing, `get_gpu()`, `platform.system()` and the building of the configuration set (jobs/Scripts/simpleRender.py:20-35, 53-57) are environment probing. The configuration set, the render device, the test group, the retry count and the update mode are inputs, held in `Env`.
- Baseline path resolution and `os.makedirs` (jobs/Scripts/simpleRender.py:60-72) are platform conventions. The shared store and the two directories are maps from relative path to contents.
- The first copy of the tests list and its failure handler (jobs/Scripts/simpleRender.py:37-51) are file I/O. The model starts from the loaded list and its copy (`Loaded`, the constructor). The handler also refers to an unbound `e`, so it has no behaviour of its own to state.
- File contents are JSON values or opaque bytes. The bytes that `json.dump` writes, their indentation, and the parsing of non-JSON files are not modelled. A read fails exactly when the path is missing or the contents have the wrong shape. Other I/O errors (permissions, a full disk) are not modelled.
- JSON numbers are integers, since the script only copies them. Floating point is not modelled.
- `datetime.now()` is a parameter `clock` of the case index, because its value is nondeterministic.
- The log messages are left out because they are output only. Three names are not defined in this file: `engine` (jobs/Scripts/simpleRender.py:81, :91), `core_config` (:76) and `main_logger` (:41, :80). They are taken to come from the star import of `jobs_launcher.core.config`. `engine` becomes the constant `Config.engine`, and `core_config.RENDER_REPORT_BASE` becomes `Config.reportBase`. If any of them were undefined, every preparation iteration would raise.
- `is_case_skipped` (from `utils`) is not part of this model. It is an uninterpreted function of the record and the configuration set.
- Running a case (command building, processes, timeouts, logs) does not exist in the script: the attempt body is a TODO. The retry loop therefore never changes the status.
- The exit status of an uncaught exception is taken as 1, Python's. A raised exception is an `Aborted` outcome carrying the index of the case that raised it.
- jobs/Scripts/makeReport.py is not part of this model. It only lists a directory and does file I/O.
- `RenderFacts.PrepareCaseKeepsReports`, `PrepareFromReports`, `PreparedReports`, `PreparedRewritable`, `BatchCompletes` and `BatchReports` assume distinct output paths: no two cases share a report path, and no report path is an image path or `test_cases.json`. The script does not check this. Without it one case's files may overwrite another's, so the report a case ends with is not promised.
- `RenderFacts.PreparedStatuses`, `SelectionAfterPrepare`, `PreparedRecords`, `BatchCompletes` and `BatchStatuses` assume distinct constants: the Ignore and Crash statuses differ, and Ignore is not `'active'`. Otherwise the Ignore status written during preparation could make a skipped case look like one to run, since the selection asks `is_case_skipped` again of the prepared record.
- Copies whose failure the script swallows fail in the model only when the source is missing, or when the reference report has the wrong shape. A store is a flat map with no directories. So two further failures are not modelled: an image path in the reference report that names a directory of the shared store, and a stub copy into `Color/` of the output directory, which the script never creates.
