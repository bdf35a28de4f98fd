/** Properties of the batch as `RenderSpec` states it: what the preparation
    pass leaves behind, which cases the run pass selects, how the retry loop
    ends, what the run pass changes, and the whole batch put together. */
module RenderFacts {
  import opened Documents
  import opened Text
  import opened RenderSpec

  /** The configuration constants are distinct statuses, and the ignore status
      is not the string 'active' the run loop selects on (the selection asks
      `is_case_skipped` again, of the prepared record). */
  predicate ConstantsDistinct(cfg: Config)
  {
    cfg.ignoreStatus != cfg.crashStatus && cfg.ignoreStatus != "active"
  }

  /** Every record has the keys the preparation pass reads. */
  predicate AllWellFormed(tests: seq<TestRecord>)
  {
    forall i :: 0 <= i < |tests| ==> WellFormed(tests[i])
  }

  /** The files of different cases do not collide: case names are the unique
      keys of a batch, no report path is an image path, and no report path is
      the tests-list copy. */
  predicate DistinctOutputs(cfg: Config, tests: seq<TestRecord>)
  {
    (forall i, j {:trigger CaseKey(cfg, tests[i]), CaseKey(cfg, tests[j])} ::
       0 <= i < j < |tests| ==> CaseKey(cfg, tests[i]) != CaseKey(cfg, tests[j])) &&
    (forall i, j {:trigger CaseKey(cfg, tests[i]), ColorKey(Name(tests[j]), Ext(tests[j]))} ::
       0 <= i < |tests| && 0 <= j < |tests| ==> CaseKey(cfg, tests[i]) != ColorKey(Name(tests[j]), Ext(tests[j]))) &&
    (forall i :: 0 <= i < |tests| ==> CaseKey(cfg, tests[i]) != TestsListKey)
  }

  // ---------------------------------------------------------------------------
  // The report of one case

  /** `d.update(entries)`: a key no entry names keeps its value. */
  lemma {:induction false} DictUpdateElsewhere(d: map<string, Json>, entries: seq<(string, Json)>, k: string)
    requires forall a :: 0 <= a < |entries| ==> entries[a].0 != k
    ensures (k in DictUpdate(d, entries)) == (k in d)
    ensures k in d ==> DictUpdate(d, entries)[k] == d[k]
    decreases |entries|
  {
    if entries != [] {
      DictUpdateElsewhere(d[entries[0].0 := entries[0].1], entries[1..], k);
    }
  }

  /** `d.update(entries)`: the last entry for a key gives its value. */
  lemma {:induction false} DictUpdateLast(d: map<string, Json>, entries: seq<(string, Json)>, j: nat)
    requires j < |entries|
    requires forall a :: j < a < |entries| ==> entries[a].0 != entries[j].0
    ensures entries[j].0 in DictUpdate(d, entries) && DictUpdate(d, entries)[entries[j].0] == entries[j].1
    decreases |entries|
  {
    if j == 0 {
      DictUpdateElsewhere(d[entries[0].0 := entries[0].1], entries[1..], entries[0].0);
    } else {
      DictUpdateLast(d[entries[0].0 := entries[0].1], entries[1..], j - 1);
    }
  }

  /** `d.update(entries)` has the keys of `d` and of the entries. */
  lemma {:induction false} DictUpdateKeys(d: map<string, Json>, entries: seq<(string, Json)>)
    ensures DictUpdate(d, entries).Keys == d.Keys + set a | 0 <= a < |entries| :: entries[a].0
    decreases |entries|
  {
    if entries != [] {
      var rest := entries[1..];
      DictUpdateKeys(d[entries[0].0 := entries[0].1], rest);
      var all := set a | 0 <= a < |entries| :: entries[a].0;
      var later := set a | 0 <= a < |rest| :: rest[a].0;
      forall k | k in all
        ensures k == entries[0].0 || k in later
      {
        var a :| 0 <= a < |entries| && entries[a].0 == k;
        if a > 0 {
          assert rest[a - 1].0 == k;
        }
      }
      forall k | k in later
        ensures k in all
      {
        var a :| 0 <= a < |rest| && rest[a].0 == k;
        assert entries[a + 1].0 == k;
      }
      assert entries[0].0 in all;
    }
  }

  /** The report has the template's keys and the derived ones, and every key
      the case does not fill in keeps the template's value: the template itself
      is copied, never changed. */
  lemma CaseReportKeys(cfg: Config, env: Env, i: nat, test: TestRecord, status: string)
    requires WellFormed(test)
    ensures var r := CaseReport(cfg, env, i, test, status);
      r.Keys == cfg.reportBase.Keys + DerivedKeys &&
      forall k :: k in cfg.reportBase && k !in DerivedKeys ==> r[k] == cfg.reportBase[k]
  {
    var fields := CaseFields(cfg, env, i, test, status);
    DictUpdateKeys(cfg.reportBase, fields);
    var named := set a | 0 <= a < |fields| :: fields[a].0;
    forall a | 0 <= a < |fields|
      ensures fields[a].0 in DerivedKeys
    {
    }
    assert fields[0].0 in named && fields[1].0 in named && fields[2].0 in named && fields[3].0 in named;
    assert fields[4].0 in named && fields[5].0 in named && fields[6].0 in named && fields[7].0 in named;
    assert fields[8].0 in named && fields[9].0 in named && fields[10].0 in named;
    assert named == DerivedKeys;
    forall k | k in cfg.reportBase && k !in DerivedKeys
      ensures DictUpdate(cfg.reportBase, fields)[k] == cfg.reportBase[k]
    {
      DictUpdateElsewhere(cfg.reportBase, fields, k);
    }
  }

  /** The report holds every derived field with the case's value. */
  lemma CaseReportFields(cfg: Config, env: Env, i: nat, test: TestRecord, status: string)
    requires WellFormed(test)
    ensures var r := CaseReport(cfg, env, i, test, status);
      var name := test["name"].s;
      var ext := test["file_ext"].s;
      DerivedKeys <= r.Keys &&
      r["test_status"] == Str(status) &&
      r["render_device"] == env.renderDevice &&
      r["test_case"] == Str(name) &&
      r["scene_name"] == test["scene_sub_path"] &&
      r["tool"] == cfg.engine &&
      r["file_name"] == Str(name + ext) &&
      r["date_time"] == Str(env.clock(i)) &&
      r["script_info"] == test["script_info"] &&
      r["test_group"] == Str(env.testGroup) &&
      r["render_color_path"] == Str("Color/" + name + ext) &&
      r["testcase_timeout"] == test["render_time"]
  {
    var fields := CaseFields(cfg, env, i, test, status);
    CaseReportKeys(cfg, env, i, test, status);
    forall j | 0 <= j < |fields|
      ensures fields[j].0 in DictUpdate(cfg.reportBase, fields)
      ensures DictUpdate(cfg.reportBase, fields)[fields[j].0] == fields[j].1
    {
      DictUpdateLast(cfg.reportBase, fields, j);
    }
    assert fields[0].0 == "test_status" && fields[1].0 == "render_device" && fields[2].0 == "test_case";
    assert fields[3].0 == "scene_name" && fields[4].0 == "tool" && fields[5].0 == "file_name";
    assert fields[6].0 == "date_time" && fields[7].0 == "script_info" && fields[8].0 == "test_group";
    assert fields[9].0 == "render_color_path" && fields[10].0 == "testcase_timeout";
  }

  /** The predefined report holds the derived fields; an ignored case's report
      also has `group_timeout_exceeded = false`; every other key keeps the
      template's value. */
  lemma PredefinedReportFields(cfg: Config, env: Env, i: nat, test: TestRecord)
    requires WellFormed(test)
    ensures var r := PredefinedReport(cfg, env, i, test);
      var name := test["name"].s;
      var ext := test["file_ext"].s;
      r.Keys == cfg.reportBase.Keys + DerivedKeys +
                (if PredefinedStatus(cfg, env, test) == cfg.ignoreStatus then {"group_timeout_exceeded"} else {}) &&
      r["test_status"] == Str(PredefinedStatus(cfg, env, test)) &&
      r["render_device"] == env.renderDevice &&
      r["test_case"] == Str(name) &&
      r["scene_name"] == test["scene_sub_path"] &&
      r["tool"] == cfg.engine &&
      r["file_name"] == Str(name + ext) &&
      r["date_time"] == Str(env.clock(i)) &&
      r["script_info"] == test["script_info"] &&
      r["test_group"] == Str(env.testGroup) &&
      r["render_color_path"] == Str("Color/" + name + ext) &&
      r["testcase_timeout"] == test["render_time"] &&
      (PredefinedStatus(cfg, env, test) == cfg.ignoreStatus ==> r["group_timeout_exceeded"] == Bool(false)) &&
      (forall k :: (k in cfg.reportBase && k !in DerivedKeys &&
                    (k == "group_timeout_exceeded" ==> PredefinedStatus(cfg, env, test) != cfg.ignoreStatus)) ==>
         r[k] == cfg.reportBase[k])
  {
    var status := PredefinedStatus(cfg, env, test);
    CaseReportKeys(cfg, env, i, test, status);
    CaseReportFields(cfg, env, i, test, status);
  }

  // ---------------------------------------------------------------------------
  // The preparation pass

  /** What one iteration of the preparation loop does to each part of the state. */
  lemma PrepareCaseEffect(cfg: Config, env: Env, st: State, i: nat)
    requires i < |st.tests|
    ensures PrepareCase(cfg, env, st, i).Some? <==> WellFormed(st.tests[i])
    ensures PrepareCase(cfg, env, st, i).Some? ==>
      var test := st.tests[i];
      var next := PrepareCase(cfg, env, st, i).value;
      next.tests == st.tests[i := Prepared(cfg, env, test)] &&
      next.baseline ==
        (if Contains(env.updateRefs, "Update") then st.baseline
         else CopyBaseline(cfg, env.references, st.baseline, Name(test))) &&
      next.output == CopyStub(env, st.output, test, PredefinedStatus(cfg, env, test))[CaseKey(cfg, test) := ReportDoc(cfg, env, i, test)]
  {
  }

  /** One unfolding of the preparation loop. */
  lemma PrepareFromStep(cfg: Config, env: Env, st: State, i: nat)
    requires i < |st.tests|
    ensures PrepareCase(cfg, env, st, i).None? ==> PrepareFrom(cfg, env, st, i) == Aborted(i, st)
    ensures PrepareCase(cfg, env, st, i).Some? ==>
              PrepareFrom(cfg, env, st, i) == PrepareFrom(cfg, env, PrepareCase(cfg, env, st, i).value, i + 1)
  {
  }

  /** Induction over the preparation loop: an invariant that holds before case
      `i` and that every successful iteration carries to the next case holds
      where the loop ends, and an abort happens on a case whose iteration
      fails. */
  lemma {:induction false} PrepareFromInvariant(cfg: Config, env: Env, st: State, i: nat, inv: (State, nat) -> bool)
    requires i <= |st.tests|
    requires inv(st, i)
    requires forall s: State, k: nat {:trigger inv(s, k)} ::
               k < |s.tests| && inv(s, k) && PrepareCase(cfg, env, s, k).Some? ==> inv(PrepareCase(cfg, env, s, k).value, k + 1)
    ensures var o := PrepareFrom(cfg, env, st, i);
      |o.st.tests| == |st.tests| &&
      (o.Completed? ==> inv(o.st, |st.tests|)) &&
      (o.Aborted? ==> i <= o.at < |st.tests| && inv(o.st, o.at) && PrepareCase(cfg, env, o.st, o.at).None?)
    decreases |st.tests| - i
  {
    if i < |st.tests| {
      PrepareFromStep(cfg, env, st, i);
      if PrepareCase(cfg, env, st, i).Some? {
        PrepareFromInvariant(cfg, env, PrepareCase(cfg, env, st, i).value, i + 1, inv);
      }
    }
  }

  /** The records from `k` on are still the original ones. */
  ghost predicate Untouched(st: State, k: nat, orig: seq<TestRecord>)
  {
    k <= |orig| == |st.tests| && forall m :: k <= m < |orig| ==> st.tests[m] == orig[m]
  }

  /** The invariant of the preparation loop about aborting: the records before
      `k` had every key the loop reads. */
  ghost predicate ReadableUpTo(st: State, k: nat, orig: seq<TestRecord>)
  {
    Untouched(st, k, orig) && forall m :: 0 <= m < k ==> WellFormed(orig[m])
  }

  /** One iteration succeeds exactly on a record with every key it reads. */
  lemma PrepareCaseReadable(cfg: Config, env: Env, st: State, k: nat, orig: seq<TestRecord>)
    requires k < |st.tests|
    requires ReadableUpTo(st, k, orig)
    ensures PrepareCase(cfg, env, st, k).Some? <==> WellFormed(orig[k])
    ensures PrepareCase(cfg, env, st, k).Some? ==> ReadableUpTo(PrepareCase(cfg, env, st, k).value, k + 1, orig)
  {
    PrepareCaseEffect(cfg, env, st, k);
  }

  /** The preparation pass completes exactly when every record has the keys it
      reads; otherwise it stops at the first record that does not. */
  lemma PrepareAbortsAtFirstMalformed(cfg: Config, env: Env, st: State)
    ensures var o := Prepare(cfg, env, st);
      (o.Completed? <==> forall m :: 0 <= m < |st.tests| ==> WellFormed(st.tests[m])) &&
      (o.Aborted? ==>
         o.at < |st.tests| && !WellFormed(st.tests[o.at]) &&
         forall m :: 0 <= m < o.at ==> WellFormed(st.tests[m]))
  {
    var inv := (s: State, k: nat) => ReadableUpTo(s, k, st.tests);
    forall s: State, k: nat | k < |s.tests| && inv(s, k) && PrepareCase(cfg, env, s, k).Some?
      ensures inv(PrepareCase(cfg, env, s, k).value, k + 1)
    {
      PrepareCaseReadable(cfg, env, s, k, st.tests);
    }
    PrepareFromInvariant(cfg, env, st, 0, inv);
    var o := PrepareFrom(cfg, env, st, 0);
    if o.Aborted? {
      PrepareCaseReadable(cfg, env, o.st, o.at, st.tests);
    }
  }

  /** The invariant of the preparation loop about the tests list: the records
      before `k` are prepared, the others untouched. */
  ghost predicate PreparedUpTo(cfg: Config, env: Env, st: State, k: nat, orig: seq<TestRecord>)
  {
    Untouched(st, k, orig) && forall m :: 0 <= m < k ==> st.tests[m] == Prepared(cfg, env, orig[m])
  }

  /** One successful iteration prepares its own record and no other. */
  lemma PrepareCaseStatus(cfg: Config, env: Env, st: State, k: nat, orig: seq<TestRecord>)
    requires k < |st.tests|
    requires PreparedUpTo(cfg, env, st, k, orig)
    requires PrepareCase(cfg, env, st, k).Some?
    ensures PreparedUpTo(cfg, env, PrepareCase(cfg, env, st, k).value, k + 1, orig)
  {
    PrepareCaseEffect(cfg, env, st, k);
  }

  /** After preparation the list has its length and order; a case whose
      predefined status is Ignore has `status` overwritten with it, every other
      record is untouched. With distinct constants: skipped cases are exactly
      the ones set to Ignore. */
  lemma PreparedStatuses(cfg: Config, env: Env, st: State)
    ensures var o := Prepare(cfg, env, st);
      o.Completed? ==>
        |o.st.tests| == |st.tests| &&
        (forall m :: 0 <= m < |st.tests| ==> o.st.tests[m] == Prepared(cfg, env, st.tests[m])) &&
        (cfg.ignoreStatus != cfg.crashStatus ==>
           forall m :: 0 <= m < |st.tests| ==>
             o.st.tests[m] ==
               if env.isCaseSkipped(st.tests[m], env.conf) then st.tests[m]["status" := Str(cfg.ignoreStatus)]
               else st.tests[m])
  {
    var inv := (s: State, k: nat) => PreparedUpTo(cfg, env, s, k, st.tests);
    forall s: State, k: nat | k < |s.tests| && inv(s, k) && PrepareCase(cfg, env, s, k).Some?
      ensures inv(PrepareCase(cfg, env, s, k).value, k + 1)
    {
      PrepareCaseStatus(cfg, env, s, k, st.tests);
    }
    PrepareFromInvariant(cfg, env, st, 0, inv);
  }

  /** The invariant of the preparation loop about report files: the cases
      before `i` have their predefined reports and the cases from `i` on are
      untouched. */
  ghost predicate ReportsUpTo(cfg: Config, env: Env, st: State, i: nat, orig: seq<TestRecord>)
  {
    i <= |st.tests| == |orig| &&
    (forall m :: 0 <= m < |orig| ==> WellFormed(orig[m])) &&
    (forall m :: i <= m < |orig| ==> st.tests[m] == orig[m]) &&
    (forall m :: 0 <= m < i ==>
       CaseKey(cfg, orig[m]) in st.output && st.output[CaseKey(cfg, orig[m])] == ReportDoc(cfg, env, m, orig[m]))
  }

  /** One iteration writes its own report file and, with distinct output
      paths, leaves every earlier one in place. */
  lemma PrepareCaseKeepsReports(cfg: Config, env: Env, st: State, i: nat, orig: seq<TestRecord>)
    requires i < |st.tests|
    requires DistinctOutputs(cfg, orig)
    requires ReportsUpTo(cfg, env, st, i, orig)
    ensures PrepareCase(cfg, env, st, i).Some?
    ensures ReportsUpTo(cfg, env, PrepareCase(cfg, env, st, i).value, i + 1, orig)
  {
    PrepareCaseEffect(cfg, env, st, i);
    var next := PrepareCase(cfg, env, st, i).value;
    forall m | 0 <= m < i + 1
      ensures CaseKey(cfg, orig[m]) in next.output
      ensures next.output[CaseKey(cfg, orig[m])] == ReportDoc(cfg, env, m, orig[m])
    {
      if m < i {
        assert CaseKey(cfg, orig[m]) != CaseKey(cfg, orig[i]);
        assert CaseKey(cfg, orig[m]) != ColorKey(Name(orig[i]), Ext(orig[i]));
      }
    }
  }

  /** With distinct output paths the preparation loop completes, and each
      case's report file holds its predefined report. */
  lemma PrepareFromReports(cfg: Config, env: Env, st: State, orig: seq<TestRecord>)
    requires DistinctOutputs(cfg, orig)
    requires ReportsUpTo(cfg, env, st, 0, orig)
    ensures PrepareFrom(cfg, env, st, 0).Completed?
    ensures ReportsUpTo(cfg, env, PrepareFrom(cfg, env, st, 0).st, |orig|, orig)
  {
    var inv := (s: State, k: nat) => ReportsUpTo(cfg, env, s, k, orig);
    forall s: State, k: nat | k < |s.tests| && inv(s, k)
      ensures PrepareCase(cfg, env, s, k).Some? && inv(PrepareCase(cfg, env, s, k).value, k + 1)
    {
      PrepareCaseKeepsReports(cfg, env, s, k, orig);
    }
    PrepareFromInvariant(cfg, env, st, 0, inv);
  }

  /** With distinct output paths the preparation pass completes, the report
      file of every case holds a one-element list with that case's predefined
      report, and the persisted tests list is the in-memory one. */
  lemma PreparedReports(cfg: Config, env: Env, st: State)
    requires AllWellFormed(st.tests)
    requires DistinctOutputs(cfg, st.tests)
    ensures var o := Prepare(cfg, env, st);
      o.Completed? &&
      (forall m :: 0 <= m < |st.tests| ==>
         CaseKey(cfg, st.tests[m]) in o.st.output &&
         o.st.output[CaseKey(cfg, st.tests[m])] == ReportDoc(cfg, env, m, st.tests[m]) &&
         IsSingleton(o.st.output[CaseKey(cfg, st.tests[m])])) &&
      TestsListKey in o.st.output && o.st.output[TestsListKey] == Doc(ListDoc(o.st.tests))
  {
    PrepareAbortsAtFirstMalformed(cfg, env, st);
    PrepareFromReports(cfg, env, st, st.tests);
  }

  /** Copying mirrored files twice is still a mirror. */
  lemma MirrorsTransitive(refs: Store, a: Store, b: Store, c: Store)
    requires Mirrors(refs, a, b) && Mirrors(refs, b, c)
    ensures Mirrors(refs, a, c)
  {
  }

  /** The thumbnail loop copies the image named under the `t`-th prefix when
      every key up to it names a path and the image exists in the shared
      store. */
  lemma {:induction false} CopyThumbsCopies(refs: Store, b: Store, fields: map<string, Json>, thumbs: seq<string>, t: nat)
    requires t < |thumbs|
    requires forall u :: 0 <= u <= t ==>
               thumbs[u] + "render_color_path" in fields && fields[thumbs[u] + "render_color_path"].Str?
    requires fields[thumbs[t] + "render_color_path"].s in refs
    ensures var p := fields[thumbs[t] + "render_color_path"].s;
      p in CopyThumbs(refs, b, fields, thumbs) && CopyThumbs(refs, b, fields, thumbs)[p] == refs[p]
    decreases t
  {
    var p0 := fields[thumbs[0] + "render_color_path"].s;
    var b1 := if p0 in refs then b[p0 := refs[p0]] else b;
    assert CopyThumbs(refs, b, fields, thumbs) == CopyThumbs(refs, b1, fields, thumbs[1..]);
    if t > 0 {
      CopyThumbsCopies(refs, b1, fields, thumbs[1..], t - 1);
    }
  }

  /** A key that is missing or names no string path ends the thumbnail loop:
      the later prefixes are not tried. */
  lemma {:induction false} CopyThumbsStops(refs: Store, b: Store, fields: map<string, Json>, thumbs: seq<string>, t: nat)
    requires t < |thumbs|
    requires thumbs[t] + "render_color_path" !in fields || !fields[thumbs[t] + "render_color_path"].Str?
    ensures CopyThumbs(refs, b, fields, thumbs) == CopyThumbs(refs, b, fields, thumbs[..t])
    decreases t
  {
    if t > 0 {
      var key := thumbs[0] + "render_color_path";
      if key in fields && fields[key].Str? {
        var p := fields[key].s;
        var b1 := if p in refs then b[p := refs[p]] else b;
        assert thumbs[..t][0] == thumbs[0];
        assert thumbs[..t][1..] == thumbs[1..][..t - 1];
        CopyThumbsStops(refs, b1, fields, thumbs[1..], t - 1);
      }
    }
  }

  /** The baseline copy of a case whose reference report is a JSON dictionary:
      the images it names are copied, prefix by prefix, until a key is missing
      or names no string path. */
  lemma CopyBaselineImages(cfg: Config, refs: Store, b: Store, name: string, t: nat)
    requires ReportKey(cfg, name) in refs
    requires refs[ReportKey(cfg, name)].Doc? && refs[ReportKey(cfg, name)].json.Obj?
    requires t < 1 + |cfg.thumbnailPrefixes|
    ensures var fields := refs[ReportKey(cfg, name)].json.fields;
      var thumbs := [""] + cfg.thumbnailPrefixes;
      var r := CopyBaseline(cfg, refs, b, name);
      ((forall u :: 0 <= u <= t ==>
          thumbs[u] + "render_color_path" in fields && fields[thumbs[u] + "render_color_path"].Str?) &&
       fields[thumbs[t] + "render_color_path"].s in refs ==>
         fields[thumbs[t] + "render_color_path"].s in r &&
         r[fields[thumbs[t] + "render_color_path"].s] == refs[fields[thumbs[t] + "render_color_path"].s]) &&
      (thumbs[t] + "render_color_path" !in fields || !fields[thumbs[t] + "render_color_path"].Str? ==>
         r == CopyThumbs(refs, b[ReportKey(cfg, name) := refs[ReportKey(cfg, name)]], fields, thumbs[..t]))
  {
    var key := ReportKey(cfg, name);
    var fields := refs[key].json.fields;
    var thumbs := [""] + cfg.thumbnailPrefixes;
    var b1 := b[key := refs[key]];
    assert CopyBaseline(cfg, refs, b, name) == CopyThumbs(refs, b1, fields, thumbs);
    if forall u :: 0 <= u <= t ==> thumbs[u] + "render_color_path" in fields && fields[thumbs[u] + "render_color_path"].Str? {
      if fields[thumbs[t] + "render_color_path"].s in refs {
        CopyThumbsCopies(refs, b1, fields, thumbs, t);
      }
    } else if thumbs[t] + "render_color_path" !in fields || !fields[thumbs[t] + "render_color_path"].Str? {
      CopyThumbsStops(refs, b1, fields, thumbs, t);
    }
  }

  /** The invariant of the preparation loop about the baseline directory: it
      only received files of the shared store, it is untouched in update mode,
      and otherwise it holds the reference report of every case before `k`
      that has one. */
  ghost predicate BaselineUpTo(cfg: Config, env: Env, st: State, k: nat, orig: seq<TestRecord>, b0: Store)
  {
    Untouched(st, k, orig) &&
    Mirrors(env.references, b0, st.baseline) &&
    (Contains(env.updateRefs, "Update") ==> st.baseline == b0) &&
    (!Contains(env.updateRefs, "Update") ==>
       forall m :: 0 <= m < k && CaseKey(cfg, orig[m]) in env.references ==>
         CaseKey(cfg, orig[m]) in st.baseline && st.baseline[CaseKey(cfg, orig[m])] == env.references[CaseKey(cfg, orig[m])])
  }

  /** One successful iteration copies its own reference report and keeps the
      earlier ones. */
  lemma PrepareCaseBaseline(cfg: Config, env: Env, st: State, k: nat, orig: seq<TestRecord>, b0: Store)
    requires k < |st.tests|
    requires BaselineUpTo(cfg, env, st, k, orig, b0)
    requires PrepareCase(cfg, env, st, k).Some?
    ensures BaselineUpTo(cfg, env, PrepareCase(cfg, env, st, k).value, k + 1, orig, b0)
  {
    PrepareCaseEffect(cfg, env, st, k);
    MirrorsTransitive(env.references, b0, st.baseline, PrepareCase(cfg, env, st, k).value.baseline);
  }

  /** The baseline copy is attempted exactly when the update mode does not
      contain "Update": in update mode the baseline directory is left alone;
      otherwise every case whose reference report exists in the shared store
      has it copied. Either way the baseline directory only ever receives
      files of the shared store under their own paths. */
  lemma BaselineCopyGate(cfg: Config, env: Env, st: State)
    ensures var o := Prepare(cfg, env, st);
      Mirrors(env.references, st.baseline, o.st.baseline) &&
      (Contains(env.updateRefs, "Update") ==> o.st.baseline == st.baseline) &&
      (!Contains(env.updateRefs, "Update") && o.Completed? ==>
         forall m :: 0 <= m < |st.tests| && CaseKey(cfg, st.tests[m]) in env.references ==>
           CaseKey(cfg, st.tests[m]) in o.st.baseline &&
           o.st.baseline[CaseKey(cfg, st.tests[m])] == env.references[CaseKey(cfg, st.tests[m])])
  {
    var inv := (s: State, k: nat) => BaselineUpTo(cfg, env, s, k, st.tests, st.baseline);
    forall s: State, k: nat | k < |s.tests| && inv(s, k) && PrepareCase(cfg, env, s, k).Some?
      ensures inv(PrepareCase(cfg, env, s, k).value, k + 1)
    {
      PrepareCaseBaseline(cfg, env, s, k, st.tests, st.baseline);
    }
    PrepareFromInvariant(cfg, env, st, 0, inv);
  }

  /** Two outcomes that agree on everything but the baseline directory. */
  predicate SameVisible(o1: Outcome, o2: Outcome)
  {
    o1.Completed? == o2.Completed? && (o1.Aborted? ==> o1.at == o2.at) &&
    o1.st.tests == o2.st.tests && o1.st.output == o2.st.output
  }

  /** One iteration writes the same tests list and output directory whatever
      the shared store, the update mode and the baseline directory. */
  lemma PrepareCaseIgnoresBaseline(cfg: Config, env: Env, st: State, i: nat, refs: Store, updateRefs: string, b: Store)
    requires i < |st.tests|
    ensures var o1 := PrepareCase(cfg, env, st, i);
      var o2 := PrepareCase(cfg, env.(references := refs, updateRefs := updateRefs), st.(baseline := b), i);
      o1.Some? == o2.Some? &&
      (o1.Some? ==> o1.value.tests == o2.value.tests && o1.value.output == o2.value.output)
  {
    PrepareCaseEffect(cfg, env, st, i);
    PrepareCaseEffect(cfg, env.(references := refs, updateRefs := updateRefs), st.(baseline := b), i);
  }

  lemma {:induction false} PrepareFromIgnoresBaseline(cfg: Config, env: Env, st: State, i: nat,
                                                      refs: Store, updateRefs: string, b: Store)
    requires i <= |st.tests|
    ensures SameVisible(PrepareFrom(cfg, env, st, i),
                        PrepareFrom(cfg, env.(references := refs, updateRefs := updateRefs), st.(baseline := b), i))
    decreases |st.tests| - i
  {
    var env2 := env.(references := refs, updateRefs := updateRefs);
    if i < |st.tests| {
      PrepareCaseIgnoresBaseline(cfg, env, st, i, refs, updateRefs, b);
      PrepareFromStep(cfg, env, st, i);
      PrepareFromStep(cfg, env2, st.(baseline := b), i);
      var o1 := PrepareCase(cfg, env, st, i);
      if o1.Some? {
        var next2 := PrepareCase(cfg, env2, st.(baseline := b), i).value;
        assert next2 == o1.value.(baseline := next2.baseline);
        PrepareFromIgnoresBaseline(cfg, env, o1.value, i + 1, refs, updateRefs, next2.baseline);
      }
    }
  }

  /** Whatever the shared store holds, whatever the update mode and the
      baseline directory, the preparation pass completes or aborts at the same
      case and leaves the same tests list and output directory: a baseline
      copy that fails changes neither the batch nor any report. */
  lemma BaselineNeverAffectsReports(cfg: Config, env: Env, st: State, refs: Store, updateRefs: string, b: Store)
    ensures SameVisible(Prepare(cfg, env, st),
                        Prepare(cfg, env.(references := refs, updateRefs := updateRefs), st.(baseline := b)))
  {
    PrepareFromIgnoresBaseline(cfg, env, st, 0, refs, updateRefs, b);
  }

  // ---------------------------------------------------------------------------
  // Selection

  /** After preparation the run pass selects, in list order, exactly the cases
      whose original `status` is 'active' and that are not skipped; a skipped
      case is never run. The selection raises exactly when a case that is not
      skipped has no `status`. */
  lemma SelectionAfterPrepare(cfg: Config, env: Env, st: State)
    requires ConstantsDistinct(cfg)
    ensures var o := Prepare(cfg, env, st);
      o.Completed? ==>
        var sel := Select(env, o.st.tests);
        (sel.MissingStatus? <==>
           exists m :: 0 <= m < |st.tests| && !env.isCaseSkipped(st.tests[m], env.conf) && "status" !in st.tests[m]) &&
        (sel.Selected? ==>
           Increasing(sel.indices) &&
           (forall q :: 0 <= q < |sel.indices| ==> sel.indices[q] < |st.tests|) &&
           (forall m :: 0 <= m < |st.tests| ==> (m in sel.indices <==> Runnable(env, st.tests[m]))) &&
           (forall m :: 0 <= m < |st.tests| && env.isCaseSkipped(st.tests[m], env.conf) ==> m !in sel.indices))
  {
    PreparedStatuses(cfg, env, st);
    var o := Prepare(cfg, env, st);
    if o.Completed? {
      var s := o.st.tests;
      forall m | 0 <= m < |st.tests|
        ensures ("status" in s[m]) == (env.isCaseSkipped(st.tests[m], env.conf) || "status" in st.tests[m])
        ensures Runnable(env, s[m]) == Runnable(env, st.tests[m])
      {
        if env.isCaseSkipped(st.tests[m], env.conf) {
          assert s[m]["status"] == Str(cfg.ignoreStatus) != Str("active");
        }
      }
    }
  }

  // ---------------------------------------------------------------------------
  // The retry loop

  /** Started on the crash status, the retry loop counts up to `retries` (or
      stays at its start when that is already reached) and ends on the crash
      status: `max(retries, 0)` iterations from 0. Started on any other status
      it stops at once. */
  lemma {:induction false} RetryLoopExhausts(crash: string, retries: int, i: int)
    requires 0 <= i
    ensures RetryLoop(crash, retries, i, crash) == (if retries > i then retries else i, crash)
    ensures forall s :: s != crash ==> RetryLoop(crash, retries, i, s) == (i, s)
    decreases retries - i
  {
    if i < retries {
      RetryLoopExhausts(crash, retries, i + 1);
    }
  }

  // ---------------------------------------------------------------------------
  // The run pass

  /** One unfolding of the run loop. */
  lemma RunFromStep(cfg: Config, env: Env, st: State, sel: seq<nat>, j: nat)
    requires j < |sel|
    requires forall m :: 0 <= m < |sel| ==> sel[m] < |st.tests|
    ensures RunCase(cfg, env, st, sel[j]).None? ==> RunFrom(cfg, env, st, sel, j) == Aborted(sel[j], st)
    ensures RunCase(cfg, env, st, sel[j]).Some? ==>
              RunFrom(cfg, env, st, sel, j) == RunFrom(cfg, env, RunCase(cfg, env, st, sel[j]).value, sel, j + 1)
  {
  }

  /** Induction over the run loop: an invariant that holds before the `j`-th
      selected case and that every successful iteration carries to the next
      holds where the loop ends, and an abort happens on a selected case whose
      iteration fails. */
  lemma {:induction false} RunFromInvariant(cfg: Config, env: Env, st: State, sel: seq<nat>, j: nat, inv: (State, nat) -> bool)
    requires j <= |sel|
    requires forall m :: 0 <= m < |sel| ==> sel[m] < |st.tests|
    requires inv(st, j)
    requires forall s: State, q: nat {:trigger inv(s, q)} ::
               q < |sel| && |s.tests| == |st.tests| && inv(s, q) && RunCase(cfg, env, s, sel[q]).Some? ==>
                 inv(RunCase(cfg, env, s, sel[q]).value, q + 1)
    ensures var o := RunFrom(cfg, env, st, sel, j);
      |o.st.tests| == |st.tests| &&
      (o.Completed? ==> inv(o.st, |sel|)) &&
      (o.Aborted? ==>
         exists q :: j <= q < |sel| && o.at == sel[q] && inv(o.st, q) && RunCase(cfg, env, o.st, sel[q]).None?)
    decreases |sel| - j
  {
    if j < |sel| {
      RunFromStep(cfg, env, st, sel, j);
      if RunCase(cfg, env, st, sel[j]).Some? {
        RunFromInvariant(cfg, env, RunCase(cfg, env, st, sel[j]).value, sel, j + 1, inv);
      } else {
        assert inv(st, j);
      }
    }
  }

  /** The invariant of the run loop about the tests list: the cases among the
      first `q` selected ones have the retry loop's status, the others are
      untouched. */
  ghost predicate RanUpTo(st: State, sel: seq<nat>, q: nat, orig: seq<TestRecord>, status: string)
  {
    q <= |sel| && |st.tests| == |orig| &&
    forall m :: 0 <= m < |orig| ==>
      st.tests[m] == if m in sel[..q] then orig[m]["status" := Str(status)] else orig[m]
  }

  /** One successful iteration writes the status back to its own record. */
  lemma RunCaseStatus(cfg: Config, env: Env, st: State, sel: seq<nat>, q: nat, orig: seq<TestRecord>)
    requires q < |sel| && sel[q] < |st.tests|
    requires RanUpTo(st, sel, q, orig, RunStatus(cfg, env))
    requires RunCase(cfg, env, st, sel[q]).Some?
    ensures RanUpTo(RunCase(cfg, env, st, sel[q]).value, sel, q + 1, orig, RunStatus(cfg, env))
  {
    assert sel[..q + 1] == sel[..q] + [sel[q]];
  }

  /** A completed run pass keeps the list's length and order, sets the status
      of every case it ran to Crash (the retry loop's final status) and leaves
      every other record as it was. */
  lemma RunPassStatuses(cfg: Config, env: Env, st: State)
    ensures var o := RunPass(cfg, env, st);
      o.Completed? ==>
        |o.st.tests| == |st.tests| &&
        forall m :: 0 <= m < |st.tests| ==>
          o.st.tests[m] ==
            if Runnable(env, st.tests[m]) then st.tests[m]["status" := Str(cfg.crashStatus)] else st.tests[m]
  {
    RetryLoopExhausts(cfg.crashStatus, env.retries, 0);
    match Select(env, st.tests)
    case MissingStatus(_) =>
    case Selected(sel) =>
      var inv := (s: State, q: nat) => RanUpTo(s, sel, q, st.tests, RunStatus(cfg, env));
      assert sel[..0] == [];
      forall s: State, q: nat | q < |sel| && |s.tests| == |st.tests| && inv(s, q) && RunCase(cfg, env, s, sel[q]).Some?
        ensures inv(RunCase(cfg, env, s, sel[q]).value, q + 1)
      {
        RunCaseStatus(cfg, env, s, sel, q, st.tests);
      }
      RunFromInvariant(cfg, env, st, sel, 0, inv);
      assert sel[..|sel|] == sel;
  }

  /** The reports of the selected cases can be rewritten: each has a name, its
      report file holds a one-element list, and it is not the tests-list copy. */
  ghost predicate ReportsRewritable(cfg: Config, st: State, sel: seq<nat>, j: nat)
  {
    forall q :: j <= q < |sel| ==>
      sel[q] < |st.tests| && HasName(st.tests[sel[q]]) &&
      CaseKey(cfg, st.tests[sel[q]]) != TestsListKey &&
      CaseKey(cfg, st.tests[sel[q]]) in st.output && IsSingleton(st.output[CaseKey(cfg, st.tests[sel[q]])])
  }

  /** The invariant of the run loop about the directories: the remaining
      reports can be rewritten, the baseline directory is untouched, and every
      file of the output directory other than the tests-list copy is as it was
      in `st0`. */
  ghost predicate KeptUpTo(cfg: Config, st: State, sel: seq<nat>, q: nat, st0: State)
  {
    ReportsRewritable(cfg, st, sel, q) && st.baseline == st0.baseline &&
    forall p :: p != TestsListKey ==>
      (p in st.output <==> p in st0.output) && (p in st0.output ==> st.output[p] == st0.output[p])
  }

  /** One iteration on a one-element report succeeds and writes it back
      unchanged. */
  lemma RunCaseKeeps(cfg: Config, env: Env, st: State, sel: seq<nat>, q: nat, st0: State)
    requires q < |sel|
    requires KeptUpTo(cfg, st, sel, q, st0)
    ensures sel[q] < |st.tests|
    ensures RunCase(cfg, env, st, sel[q]).Some?
    ensures KeptUpTo(cfg, RunCase(cfg, env, st, sel[q]).value, sel, q + 1, st0)
  {
    var k := sel[q];
    var key := CaseKey(cfg, st.tests[k]);
    var items := st.output[key].json.items;
    assert [items[0]] == items;
    var next := RunCase(cfg, env, st, k).value;
    forall r | q + 1 <= r < |sel|
      ensures CaseKey(cfg, next.tests[sel[r]]) == CaseKey(cfg, st.tests[sel[r]])
      ensures HasName(next.tests[sel[r]])
    {
    }
  }

  /** When every selected case has a readable one-element report, the run pass
      completes and every report file ends exactly as it was: rewriting a
      one-element list with its first element changes nothing. Only the
      tests-list copy changes in the output directory. */
  lemma RunPassKeepsReports(cfg: Config, env: Env, st: State)
    requires forall m :: 0 <= m < |st.tests| && Runnable(env, st.tests[m]) ==>
               HasName(st.tests[m]) && CaseKey(cfg, st.tests[m]) != TestsListKey &&
               CaseKey(cfg, st.tests[m]) in st.output && IsSingleton(st.output[CaseKey(cfg, st.tests[m])])
    ensures var o := RunPass(cfg, env, st);
      Select(env, st.tests).Selected? ==>
        o.Completed? && o.st.baseline == st.baseline &&
        forall p :: p != TestsListKey ==>
          (p in o.st.output <==> p in st.output) && (p in st.output ==> o.st.output[p] == st.output[p])
  {
    match Select(env, st.tests)
    case MissingStatus(_) =>
    case Selected(sel) =>
      var inv := (s: State, q: nat) => KeptUpTo(cfg, s, sel, q, st);
      forall s: State, q: nat | q < |sel| && |s.tests| == |st.tests| && inv(s, q)
        ensures RunCase(cfg, env, s, sel[q]).Some? && inv(RunCase(cfg, env, s, sel[q]).value, q + 1)
      {
        RunCaseKeeps(cfg, env, s, sel, q, st);
      }
      RunFromInvariant(cfg, env, st, sel, 0, inv);
  }

  /** The persisted tests list always equals the in-memory list, whether the
      run pass completes or stops at a case. */
  lemma RunPassPersists(cfg: Config, env: Env, st: State)
    requires TestsListKey in st.output && st.output[TestsListKey] == Doc(ListDoc(st.tests))
    ensures var o := RunPass(cfg, env, st);
      TestsListKey in o.st.output && o.st.output[TestsListKey] == Doc(ListDoc(o.st.tests))
  {
    match Select(env, st.tests)
    case MissingStatus(_) =>
    case Selected(sel) =>
      var inv := (s: State, q: nat) => TestsListKey in s.output && s.output[TestsListKey] == Doc(ListDoc(s.tests));
      RunFromInvariant(cfg, env, st, sel, 0, inv);
  }

  // ---------------------------------------------------------------------------
  // The whole batch

  /** The final record of a case: Ignore when skipped, Crash when it was run,
      otherwise untouched. */
  function FinalRecord(cfg: Config, env: Env, test: TestRecord): TestRecord
  {
    if env.isCaseSkipped(test, env.conf) then test["status" := Str(cfg.ignoreStatus)]
    else if Runnable(env, test) then test["status" := Str(cfg.crashStatus)]
    else test
  }

  /** After preparation every record keeps its name and report path, and,
      with distinct constants, is run exactly when the original record would
      be; running it then gives the final record. */
  lemma PreparedRecords(cfg: Config, env: Env, st: State)
    requires ConstantsDistinct(cfg)
    requires AllWellFormed(st.tests)
    ensures var o := Prepare(cfg, env, st);
      o.Completed? && |o.st.tests| == |st.tests| &&
      forall m :: 0 <= m < |st.tests| ==>
        var p := o.st.tests[m];
        HasName(p) && CaseKey(cfg, p) == CaseKey(cfg, st.tests[m]) &&
        Runnable(env, p) == Runnable(env, st.tests[m]) &&
        FinalRecord(cfg, env, st.tests[m]) == if Runnable(env, p) then p["status" := Str(cfg.crashStatus)] else p
  {
    PrepareAbortsAtFirstMalformed(cfg, env, st);
    PreparedStatuses(cfg, env, st);
    var s := Prepare(cfg, env, st).st.tests;
    forall m | 0 <= m < |st.tests|
      ensures HasName(s[m]) && CaseKey(cfg, s[m]) == CaseKey(cfg, st.tests[m])
      ensures Runnable(env, s[m]) == Runnable(env, st.tests[m])
    {
      if env.isCaseSkipped(st.tests[m], env.conf) {
        assert s[m]["status"] == Str(cfg.ignoreStatus) != Str("active");
      }
    }
  }

  /** After preparation every case the run pass selects has a readable
      one-element report that is not the tests-list copy. */
  lemma PreparedRewritable(cfg: Config, env: Env, st: State)
    requires AllWellFormed(st.tests)
    requires DistinctOutputs(cfg, st.tests)
    ensures var s := Prepare(cfg, env, st).st;
      forall m :: 0 <= m < |s.tests| && Runnable(env, s.tests[m]) ==>
        HasName(s.tests[m]) && CaseKey(cfg, s.tests[m]) != TestsListKey &&
        CaseKey(cfg, s.tests[m]) in s.output && IsSingleton(s.output[CaseKey(cfg, s.tests[m])])
  {
    PreparedReports(cfg, env, st);
    PreparedStatuses(cfg, env, st);
  }

  /** With distinct constants and distinct output paths, the batch completes
      (and `main()` returns 0) exactly when every record has the keys the
      preparation pass reads and every case that is not skipped has a
      `status`. */
  lemma BatchCompletes(cfg: Config, env: Env, st: State)
    requires ConstantsDistinct(cfg)
    requires DistinctOutputs(cfg, st.tests)
    ensures RunBatch(cfg, env, st).Completed? <==>
      AllWellFormed(st.tests) &&
      forall m :: 0 <= m < |st.tests| ==> env.isCaseSkipped(st.tests[m], env.conf) || "status" in st.tests[m]
  {
    PrepareAbortsAtFirstMalformed(cfg, env, st);
    if AllWellFormed(st.tests) {
      PreparedRecords(cfg, env, st);
      PreparedRewritable(cfg, env, st);
      SelectionAfterPrepare(cfg, env, st);
      RunPassKeepsReports(cfg, env, Prepare(cfg, env, st).st);
    }
  }

  /** With distinct constants, a completed batch leaves every skipped case
      Ignore, every active case that is not skipped Crash, and every other
      record unchanged. */
  lemma BatchStatuses(cfg: Config, env: Env, st: State)
    requires ConstantsDistinct(cfg)
    ensures var o := RunBatch(cfg, env, st);
      o.Completed? ==>
        |o.st.tests| == |st.tests| &&
        forall m :: 0 <= m < |st.tests| ==> o.st.tests[m] == FinalRecord(cfg, env, st.tests[m])
  {
    PrepareAbortsAtFirstMalformed(cfg, env, st);
    if Prepare(cfg, env, st).Completed? {
      PreparedRecords(cfg, env, st);
      RunPassStatuses(cfg, env, Prepare(cfg, env, st).st);
    }
  }

  /** With distinct output paths, after a completed batch every report file
      still holds its predefined one-element report and the persisted tests
      list is the final list. */
  lemma BatchReports(cfg: Config, env: Env, st: State)
    requires DistinctOutputs(cfg, st.tests)
    ensures var o := RunBatch(cfg, env, st);
      o.Completed? ==>
        AllWellFormed(st.tests) &&
        (forall m :: 0 <= m < |st.tests| ==>
           CaseKey(cfg, st.tests[m]) in o.st.output &&
           o.st.output[CaseKey(cfg, st.tests[m])] == ReportDoc(cfg, env, m, st.tests[m])) &&
        TestsListKey in o.st.output && o.st.output[TestsListKey] == Doc(ListDoc(o.st.tests))
  {
    PrepareAbortsAtFirstMalformed(cfg, env, st);
    if AllWellFormed(st.tests) {
      PreparedReports(cfg, env, st);
      PreparedRewritable(cfg, env, st);
      var s := Prepare(cfg, env, st).st;
      RunPassKeepsReports(cfg, env, s);
      RunPassPersists(cfg, env, s);
    }
  }
}
