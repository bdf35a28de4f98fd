/** What `main()` of jobs/Scripts/simpleRender.py does to the batch, stated as
    functions over the harness state: the preparation pass that writes one
    pessimistic report per case, the selection of the cases to run, and the run
    pass with its retry loop. The methods of `SimpleRender.Batch` are proved
    to compute exactly these functions. */
module RenderSpec {
  import opened Documents
  import opened Text

  /** One element of the tests list: a JSON dictionary, mutated in place. */
  type TestRecord = map<string, Json>

  /** One case report: a JSON dictionary. */
  type Report = map<string, Json>

  /** The names the script takes from `jobs_launcher.core.config`. Their values
      are not part of this model, so they are parameters. */
  datatype Config = Config(
    reportBase: Report,              // RENDER_REPORT_BASE
    crashStatus: string,             // TEST_CRASH_STATUS
    ignoreStatus: string,            // TEST_IGNORE_STATUS
    reportSuffix: string,            // CASE_REPORT_SUFFIX
    thumbnailPrefixes: seq<string>,  // THUMBNAIL_PREFIXES
    engine: Json)                    // engine, echoed as the report's `tool`

  /** What the batch gets from its environment: the command line, the probed
      machine, the clock and the directories it only reads. */
  datatype Env = Env(
    conf: set<string>,                                // current_conf
    renderDevice: Json,                               // get_gpu()
    testGroup: string,                                // args.test_group
    retries: int,                                     // args.retries
    updateRefs: string,                               // args.update_refs
    clock: nat -> string,                             // datetime.now() formatted, while preparing case i
    isCaseSkipped: (TestRecord, set<string>) -> bool, // utils.is_case_skipped
    references: Store,                                // the shared baseline store (baseline_path_tr)
    stubs: Store)                                     // jobs_launcher/common/img

  /** The harness state: the in-memory tests list, the output directory and the
      local baseline directory. */
  datatype State = State(tests: seq<TestRecord>, output: Store, baseline: Store)

  /** How a pass ends: it ran to the end, or an exception escaped while
      handling the case at index `at`, leaving the state as it then was. */
  datatype Outcome = Completed(st: State) | Aborted(at: nat, st: State)

  /** The copy of the tests list inside the output directory. */
  const TestsListKey := "test_cases.json"

  /** The process exit status: `main()` returns 0; an uncaught exception exits with 1. */
  function ExitCode(o: Outcome): int
  {
    if o.Completed? then 0 else 1
  }

  /** The state after the tests list has been copied into the output directory
      and loaded. */
  function Loaded(tests: seq<TestRecord>, output: Store, baseline: Store): State
  {
    State(tests, output[TestsListKey := Doc(ListDoc(tests))], baseline)
  }

  // ---------------------------------------------------------------------------
  // Case records and their derived paths

  /** The record has every key the preparation pass reads, and `name` and
      `file_ext` are strings (they are concatenated into paths). A record
      lacking one of them makes the pass raise. */
  predicate WellFormed(test: TestRecord)
  {
    "name" in test && test["name"].Str? &&
    "file_ext" in test && test["file_ext"].Str? &&
    "scene_sub_path" in test && "script_info" in test && "render_time" in test
  }

  /** The record has a string `name`, the only key the run pass reads besides `status`. */
  predicate HasName(test: TestRecord)
  {
    "name" in test && test["name"].Str?
  }

  function Name(test: TestRecord): string
  {
    if HasName(test) then test["name"].s else ""
  }

  function Ext(test: TestRecord): string
  {
    if "file_ext" in test && test["file_ext"].Str? then test["file_ext"].s else ""
  }

  /** `<name><CASE_REPORT_SUFFIX>`: a case report, in the output and in the baseline directories. */
  function ReportKey(cfg: Config, name: string): string
  {
    name + cfg.reportSuffix
  }

  /** `Color/<name><file_ext>`: a case's output image. */
  function ColorKey(name: string, ext: string): string
  {
    "Color/" + name + ext
  }

  /** The report key of a record. */
  function CaseKey(cfg: Config, test: TestRecord): string
  {
    ReportKey(cfg, Name(test))
  }

  // ---------------------------------------------------------------------------
  // The preparation pass

  /** The pessimistic status given before anything runs. */
  function PredefinedStatus(cfg: Config, env: Env, test: TestRecord): string
  {
    if env.isCaseSkipped(test, env.conf) then cfg.ignoreStatus else cfg.crashStatus
  }

  /** `d.update(entries)`: each entry in turn overwrites or adds its key, so
      the last entry for a key wins and every other key keeps its value. */
  function DictUpdate(d: map<string, Json>, entries: seq<(string, Json)>): map<string, Json>
    decreases |entries|
  {
    if entries == [] then d else DictUpdate(d[entries[0].0 := entries[0].1], entries[1..])
  }

  /** The keys the preparation pass fills in on top of the template. */
  const DerivedKeys: set<string> :=
    {"test_status", "render_device", "test_case", "scene_name", "tool", "file_name",
     "date_time", "script_info", "test_group", "render_color_path", "testcase_timeout"}

  /** The dictionary the preparation pass merges into the template, in the
      order the script lists it. */
  function CaseFields(cfg: Config, env: Env, i: nat, test: TestRecord, status: string): seq<(string, Json)>
    requires WellFormed(test)
  {
    var name := Name(test);
    var ext := Ext(test);
    [("test_status", Str(status)),
     ("render_device", env.renderDevice),
     ("test_case", Str(name)),
     ("scene_name", test["scene_sub_path"]),
     ("tool", cfg.engine),
     ("file_name", Str(name + ext)),
     ("date_time", Str(env.clock(i))),
     ("script_info", test["script_info"]),
     ("test_group", Str(env.testGroup)),
     ("render_color_path", Str("Color/" + name + ext)),
     ("testcase_timeout", test["render_time"])]
  }

  /** A copy of the report template updated with the case's fields. */
  function CaseReport(cfg: Config, env: Env, i: nat, test: TestRecord, status: string): Report
    requires WellFormed(test)
  {
    DictUpdate(cfg.reportBase, CaseFields(cfg, env, i, test, status))
  }

  /** The report written for case `i` during preparation: an ignored case also
      gets `group_timeout_exceeded = false`. */
  function PredefinedReport(cfg: Config, env: Env, i: nat, test: TestRecord): Report
    requires WellFormed(test)
  {
    var status := PredefinedStatus(cfg, env, test);
    var report := CaseReport(cfg, env, i, test, status);
    if status == cfg.ignoreStatus then report["group_timeout_exceeded" := Bool(false)] else report
  }

  /** The report file content for case `i`: a one-element list. */
  function ReportDoc(cfg: Config, env: Env, i: nat, test: TestRecord): File
    requires WellFormed(test)
  {
    Doc(Arr([Obj(PredefinedReport(cfg, env, i, test))]))
  }

  /** The record after preparation: an ignored case has its `status` overwritten. */
  function Prepared(cfg: Config, env: Env, test: TestRecord): TestRecord
  {
    if PredefinedStatus(cfg, env, test) == cfg.ignoreStatus then test["status" := Str(cfg.ignoreStatus)] else test
  }

  /** `b` may differ from `a` only by files copied from `refs` under the same path. */
  ghost predicate Mirrors(refs: Store, a: Store, b: Store)
  {
    a.Keys <= b.Keys &&
    forall p :: p in b ==> (p in refs && b[p] == refs[p]) || (p in a && b[p] == a[p])
  }

  /** The thumbnail loop: for each prefix, copy the image the baseline report
      names under `<prefix>render_color_path`, if it exists in the store. A
      missing key or a non-string path raises, which the surrounding handler
      swallows: the remaining prefixes are skipped. */
  function CopyThumbs(refs: Store, b: Store, fields: map<string, Json>, thumbs: seq<string>): (r: Store)
    ensures Mirrors(refs, b, r)
    decreases |thumbs|
  {
    if thumbs == [] then b
    else
      var key := thumbs[0] + "render_color_path";
      if key !in fields || !fields[key].Str? then b
      else
        var p := fields[key].s;
        CopyThumbs(refs, if p in refs then b[p := refs[p]] else b, fields, thumbs[1..])
  }

  /** The baseline copy for one case: copy its reference report, load the copy
      and copy the images it names. Every failure is swallowed. A reference
      report that is not a JSON dictionary cannot be indexed by key, so no image
      is copied for it. */
  function CopyBaseline(cfg: Config, refs: Store, b: Store, name: string): (r: Store)
    ensures Mirrors(refs, b, r)
    ensures ReportKey(cfg, name) in refs ==>
              ReportKey(cfg, name) in r && r[ReportKey(cfg, name)] == refs[ReportKey(cfg, name)]
  {
    var key := ReportKey(cfg, name);
    if key !in refs then b
    else
      var b1 := b[key := refs[key]];
      match refs[key]
      case Doc(Obj(fields)) => CopyThumbs(refs, b1, fields, [""] + cfg.thumbnailPrefixes)
      case _ => b1
  }

  /** The image stub copy: `<status><file_ext>` from the stub directory to the
      case's output image, when the stub exists. */
  function CopyStub(env: Env, output: Store, test: TestRecord, status: string): Store
  {
    var src := status + Ext(test);
    if src in env.stubs then output[ColorKey(Name(test), Ext(test)) := env.stubs[src]] else output
  }

  /** One iteration of the preparation loop, on case `i`; `None` when the
      record lacks a key the loop reads. */
  function PrepareCase(cfg: Config, env: Env, st: State, i: nat): (r: Option<State>)
    requires i < |st.tests|
    ensures r.Some? ==> |r.value.tests| == |st.tests|
  {
    var test := st.tests[i];
    if !WellFormed(test) then None
    else
      var status := PredefinedStatus(cfg, env, test);
      var baseline :=
        if Contains(env.updateRefs, "Update") then st.baseline
        else CopyBaseline(cfg, env.references, st.baseline, Name(test));
      var tests := if status == cfg.ignoreStatus then st.tests[i := Prepared(cfg, env, test)] else st.tests;
      var output := CopyStub(env, st.output, test, status);
      Some(State(tests, output[CaseKey(cfg, test) := ReportDoc(cfg, env, i, test)], baseline))
  }

  /** The preparation loop from case `i` to the end. */
  function PrepareFrom(cfg: Config, env: Env, st: State, i: nat): Outcome
    requires i <= |st.tests|
    decreases |st.tests| - i
  {
    if i == |st.tests| then Completed(st)
    else
      match PrepareCase(cfg, env, st, i)
      case None => Aborted(i, st)
      case Some(next) => PrepareFrom(cfg, env, next, i + 1)
  }

  /** The whole preparation pass: the loop, then the tests list is persisted. */
  function Prepare(cfg: Config, env: Env, st: State): Outcome
  {
    match PrepareFrom(cfg, env, st, 0)
    case Completed(s) => Completed(s.(output := s.output[TestsListKey := Doc(ListDoc(s.tests))]))
    case Aborted(at, s) => Aborted(at, s)
  }

  // ---------------------------------------------------------------------------
  // Selection of the cases to run

  /** The filter of the run loop: the record's `status` is 'active' and the case
      is not skipped for this machine. */
  predicate Runnable(env: Env, test: TestRecord)
  {
    "status" in test && test["status"] == Str("active") && !env.isCaseSkipped(test, env.conf)
  }

  predicate Increasing(s: seq<nat>)
  {
    forall a, b :: 0 <= a < b < |s| ==> s[a] < s[b]
  }

  /** The cases to run, as indices into the tests list, or the first record
      without a `status` key, on which the comprehension raises. */
  datatype Selection = Selected(indices: seq<nat>) | MissingStatus(at: nat)

  /** The comprehension of the run loop over the records from `j` on. */
  function SelectFrom(env: Env, tests: seq<TestRecord>, j: nat): (r: Selection)
    requires j <= |tests|
    decreases |tests| - j
    ensures r.MissingStatus? <==> exists k :: j <= k < |tests| && "status" !in tests[k]
    ensures r.MissingStatus? ==>
              j <= r.at < |tests| && "status" !in tests[r.at] &&
              forall k :: j <= k < r.at ==> "status" in tests[k]
    ensures r.Selected? ==>
              Increasing(r.indices) &&
              (forall m :: 0 <= m < |r.indices| ==> j <= r.indices[m] < |tests|) &&
              forall k :: j <= k < |tests| ==> (k in r.indices <==> Runnable(env, tests[k]))
  {
    if j == |tests| then Selected([])
    else if "status" !in tests[j] then MissingStatus(j)
    else
      match SelectFrom(env, tests, j + 1)
      case MissingStatus(at) => MissingStatus(at)
      case Selected(rest) => if Runnable(env, tests[j]) then Selected([j] + rest) else Selected(rest)
  }

  function Select(env: Env, tests: seq<TestRecord>): Selection
  {
    SelectFrom(env, tests, 0)
  }

  // ---------------------------------------------------------------------------
  // The run pass

  /** The retry loop from counter `i` with status `status`: it goes on while
      `i < retries` and the status is the crash status. The attempt itself is
      not written yet, so an iteration only counts. Yields the final counter and status. */
  function RetryLoop(crash: string, retries: int, i: int, status: string): (int, string)
    decreases retries - i
  {
    if i < retries && status == crash then RetryLoop(crash, retries, i + 1, status)
    else (i, status)
  }

  /** The status a case ends the retry loop with. */
  function RunStatus(cfg: Config, env: Env): string
  {
    RetryLoop(cfg.crashStatus, env.retries, 0, cfg.crashStatus).1
  }

  /** One iteration of the run loop, on case `k`: the retry loop, the report
      rewritten as a list of its first element, the status written back and the
      tests list persisted. `None` when the report cannot be read. */
  function RunCase(cfg: Config, env: Env, st: State, k: nat): (r: Option<State>)
    requires k < |st.tests|
    ensures r.Some? ==> |r.value.tests| == |st.tests|
  {
    var test := st.tests[k];
    var status := RunStatus(cfg, env);
    var key := CaseKey(cfg, test);
    if !HasName(test) || key !in st.output then None
    else
      match FirstElement(st.output[key])
      case None => None
      case Some(first) =>
        var tests := st.tests[k := test["status" := Str(status)]];
        var output := st.output[key := Doc(Arr([first]))][TestsListKey := Doc(ListDoc(tests))];
        Some(State(tests, output, st.baseline))
  }

  /** The run loop over the selected cases `sel[j..]`. */
  function RunFrom(cfg: Config, env: Env, st: State, sel: seq<nat>, j: nat): Outcome
    requires j <= |sel|
    requires forall m :: 0 <= m < |sel| ==> sel[m] < |st.tests|
    decreases |sel| - j
  {
    if j == |sel| then Completed(st)
    else
      match RunCase(cfg, env, st, sel[j])
      case None => Aborted(sel[j], st)
      case Some(next) => RunFrom(cfg, env, next, sel, j + 1)
  }

  /** The run pass: select, then run the selected cases in list order. */
  function RunPass(cfg: Config, env: Env, st: State): Outcome
  {
    match Select(env, st.tests)
    case MissingStatus(at) => Aborted(at, st)
    case Selected(sel) => RunFrom(cfg, env, st, sel, 0)
  }

  /** `main()` after the tests list is loaded: preparation, then the run pass. */
  function RunBatch(cfg: Config, env: Env, st: State): Outcome
  {
    match Prepare(cfg, env, st)
    case Completed(s) => RunPass(cfg, env, s)
    case Aborted(at, s) => Aborted(at, s)
  }
}
