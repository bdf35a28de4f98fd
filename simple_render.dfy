/** The body of `main()` in jobs/Scripts/simpleRender.py as the script runs it:
    a batch object holding the in-memory tests list and the two directories it
    writes, the preparation loop, the baseline copy, the run loop and its retry
    loop. Each method is proved to compute the corresponding function of
    `RenderSpec`. */
module SimpleRender {
  import opened Documents
  import opened Text
  import opened RenderSpec
  import RenderFacts

  /** The retry loop of one case: the counter starts at 0 and the loop goes on
      while it is below `retries` and the status is the crash status. The
      attempt itself is not written yet, so the status never changes: the loop
      runs `max(retries, 0)` times and ends on the crash status. */
  method Retry(crash: string, retries: int) returns (attempts: int, status: string)
    ensures (attempts, status) == RetryLoop(crash, retries, 0, crash)
    ensures attempts == (if retries > 0 then retries else 0) && status == crash
  {
    var i := 0;
    var caseStatus := crash;
    RenderFacts.RetryLoopExhausts(crash, retries, 0);
    while i < retries && caseStatus == crash
      invariant 0 <= i && (i <= retries || i == 0)
      invariant caseStatus == crash
      invariant RetryLoop(crash, retries, i, caseStatus) == RetryLoop(crash, retries, 0, crash)
      decreases retries - i
    {
      i := i + 1;
    }
    return i, caseStatus;
  }

  /** The outcome a pass method reports: where it raised, if it did, and the
      state it left. */
  function Ended(failedAt: Option<nat>, st: State): Outcome
  {
    if failedAt.Some? then Aborted(failedAt.value, st) else Completed(st)
  }

  class Batch {
    /** `tests_list`, the records the two loops update in place. */
    var tests: seq<TestRecord>
    /** The output directory: case reports, case images and `test_cases.json`. */
    var output: Store
    /** The local baseline directory. */
    var baseline: Store

    function Snapshot(): State
      reads this
    {
      State(tests, output, baseline)
    }

    /** The tests list copied into the output directory and loaded from there. */
    constructor (loaded: seq<TestRecord>, output: Store, baseline: Store)
      ensures Snapshot() == Loaded(loaded, output, baseline)
    {
      tests := loaded;
      this.output := output[TestsListKey := Doc(ListDoc(loaded))];
      this.baseline := baseline;
    }

    /** The baseline copy of one case: its reference report, then the images
        that report names for every thumbnail prefix. A failing step ends the
        copy and is swallowed. */
    method CopyBaselineFor(cfg: Config, env: Env, name: string)
      modifies this`baseline
      ensures baseline == CopyBaseline(cfg, env.references, old(baseline), name)
    {
      var refs := env.references;
      var key := ReportKey(cfg, name);
      if key !in refs {
        return;
      }
      baseline := baseline[key := refs[key]];
      var loaded := baseline[key];
      if !(loaded.Doc? && loaded.json.Obj?) {
        return;
      }
      var fields := loaded.json.fields;
      var thumbs := [""] + cfg.thumbnailPrefixes;
      ghost var copied := baseline;
      var j := 0;
      while j < |thumbs|
        invariant 0 <= j <= |thumbs|
        invariant CopyThumbs(refs, copied, fields, thumbs) == CopyThumbs(refs, baseline, fields, thumbs[j..])
      {
        assert thumbs[j..][1..] == thumbs[j + 1..];
        var pathKey := thumbs[j] + "render_color_path";
        if pathKey !in fields || !fields[pathKey].Str? {
          break;
        }
        var path := fields[pathKey].s;
        if path in refs {
          baseline := baseline[path := refs[path]];
        }
        j := j + 1;
      }
    }

    /** One iteration of the preparation loop, on case `i`: the predefined
        report, the baseline copy, the Ignore status, the image stub and the
        report file. Returns false, having changed nothing, when the record
        lacks a key the iteration reads. */
    method PrepareOne(cfg: Config, env: Env, i: nat) returns (ok: bool)
      requires i < |tests|
      modifies this
      ensures ok == PrepareCase(cfg, env, old(Snapshot()), i).Some?
      ensures Snapshot() == if ok then PrepareCase(cfg, env, old(Snapshot()), i).value else old(Snapshot())
      ensures if ok then PrepareFrom(cfg, env, old(Snapshot()), i) == PrepareFrom(cfg, env, Snapshot(), i + 1)
              else PrepareFrom(cfg, env, old(Snapshot()), i) == Aborted(i, Snapshot())
    {
      ghost var st0 := Snapshot();
      RenderFacts.PrepareCaseEffect(cfg, env, st0, i);
      RenderFacts.PrepareFromStep(cfg, env, st0, i);
      var test := tests[i];
      var isSkipped := env.isCaseSkipped(test, env.conf);
      var status := if isSkipped then cfg.ignoreStatus else cfg.crashStatus;
      if !WellFormed(test) {
        return false;
      }
      var report := CaseReport(cfg, env, i, test, status);
      if !Contains(env.updateRefs, "Update") {
        CopyBaselineFor(cfg, env, Name(test));
      }
      var record := test;
      if status == cfg.ignoreStatus {
        report := report["group_timeout_exceeded" := Bool(false)];
        record := test["status" := Str(cfg.ignoreStatus)];
      }
      var stub := status + Ext(test);
      var files := output;
      if stub in env.stubs {
        files := files[ColorKey(Name(test), Ext(test)) := env.stubs[stub]];
      }
      tests, output := tests[i := record], files[CaseKey(cfg, test) := Doc(Arr([Obj(report)]))];
      return true;
    }

    /** The preparation loop over every case. Returns the index of the case it
        raised on, if it did. */
    method PrepareLoop(cfg: Config, env: Env) returns (failedAt: Option<nat>)
      modifies this
      ensures Ended(failedAt, Snapshot()) == PrepareFrom(cfg, env, old(Snapshot()), 0)
    {
      ghost var st0 := Snapshot();
      var i := 0;
      failedAt := None;
      while i < |tests|
        invariant i <= |tests|
        invariant PrepareFrom(cfg, env, st0, 0) == PrepareFrom(cfg, env, Snapshot(), i)
      {
        var ok := PrepareOne(cfg, env, i);
        if !ok {
          failedAt := Some(i);
          break;
        }
        i := i + 1;
      }
    }

    /** The tests list written back to `test_cases.json`. */
    method PersistTests()
      modifies this`output
      ensures output == old(output)[TestsListKey := Doc(ListDoc(tests))]
    {
      output := output[TestsListKey := Doc(ListDoc(tests))];
    }

    /** The preparation pass: the loop, then the tests list persisted. Returns
        the index of the case it raised on, if it did. */
    method PrepareCases(cfg: Config, env: Env) returns (failedAt: Option<nat>)
      modifies this
      ensures Ended(failedAt, Snapshot()) == Prepare(cfg, env, old(Snapshot()))
    {
      failedAt := PrepareLoop(cfg, env);
      if failedAt.None? {
        PersistTests();
      }
    }

    /** The run loop: select the active, non-skipped cases, then for each run
        the retry loop, rewrite its report with the report's first element,
        write the status back and persist the tests list. Returns the index of
        the case it raised on, if it did. */
    method RunCases(cfg: Config, env: Env) returns (failedAt: Option<nat>)
      modifies this
      ensures Ended(failedAt, Snapshot()) == RunPass(cfg, env, old(Snapshot()))
    {
      ghost var st0 := Snapshot();
      var selection := Select(env, tests);
      if selection.MissingStatus? {
        return Some(selection.at);
      }
      var cases := selection.indices;
      var j := 0;
      while j < |cases|
        invariant 0 <= j <= |cases|
        invariant |tests| == |st0.tests|
        invariant RunFrom(cfg, env, st0, cases, 0) == RunFrom(cfg, env, Snapshot(), cases, j)
      {
        ghost var before := Snapshot();
        var k := cases[j];
        var test := tests[k];
        var attempts, status := Retry(cfg.crashStatus, env.retries);
        if !HasName(test) {
          return Some(k);
        }
        var key := CaseKey(cfg, test);
        if key !in output {
          return Some(k);
        }
        var first := FirstElement(output[key]);
        if first.None? {
          return Some(k);
        }
        output := output[key := Doc(Arr([first.value]))];
        tests := tests[k := test["status" := Str(status)]];
        PersistTests();
        assert Snapshot() == RunCase(cfg, env, before, k).value;
        j := j + 1;
      }
      return None;
    }

    /** `main()` after loading the tests list: preparation, then the run pass.
        Returns the process exit status. */
    method Execute(cfg: Config, env: Env) returns (exitCode: int)
      modifies this
      ensures Snapshot() == RunBatch(cfg, env, old(Snapshot())).st
      ensures exitCode == ExitCode(RunBatch(cfg, env, old(Snapshot())))
    {
      var failedAt := PrepareCases(cfg, env);
      if failedAt.Some? {
        return 1;
      }
      failedAt := RunCases(cfg, env);
      if failedAt.Some? {
        return 1;
      }
      return 0;
    }
  }
}
