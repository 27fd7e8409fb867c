/** The repository's own test scenarios, replayed through the store object: writes made
    with the db.py methods and read back with the report_db.py fetch functions. */
module Scenarios {
  import opened PyRuntime
  import opened Schema
  import opened ReportDb
  import opened Db

  /** One run with one section holding one finding and one stat, completed `finish - start`
      after it started, reads back with every field the writers supplied. */
  method InsertAndFetch(path: Path, startedAt: Timestamp, start: nat, finish: nat)
    returns (runId: int, fetched: Option<RunView>)
    requires start <= finish
    ensures runId == 1
    ensures fetched == Some(RunView(1, startedAt, None, None, None, None, RunInProgress,
      [SectionView(1, "Example", SectionComplete, Some(finish - start), [FindingView("ERROR", "oops")], [StatView("k", "v")])]))
  {
    var store := new AuditDb(path);
    var sid;
    runId, sid := OpenExampleSection(store, startedAt, start);
    ghost var t2 := store.db;
    RecordFinding(store, sid, t2);
    ghost var t3 := store.db;
    RecordStat(store, sid, t3);
    ghost var t4 := store.db;
    CompleteExample(store, sid, start, finish, t4);
    fetched := FetchRun(store.db, runId);
    InsertAndFetchRoundTrip(Initialized, startedAt, Some(finish - start));
  }

  /** create_run() followed by start_section(run_id, "Example") on a fresh store. */
  method OpenExampleSection(store: AuditDb, startedAt: Timestamp, start: nat) returns (runId: int, sid: int)
    requires store.Valid() && store.db == Initialized && store.startTimes == map[] && store.clock == 0
    modifies store, store.pool
    ensures store.Valid() && store.clock == start
    ensures runId == 1 && sid == 1 && store.startTimes == map[1 := start]
    ensures var (t1, r) := InsertRunRow(Initialized, startedAt, None, None, None);
      r == runId && store.db == InsertSectionRow(t1, runId, "Example").0
  {
    runId := store.CreateRun(startedAt, None, None, None);
    assert ValidateNonEmpty(PyStr("Example"), "name").Pass? by {
      assert !IsSpace("Example"[0]);
    }
    sid := StartNamed(store, runId, "Example", start, store.db);
  }

  /** insert_finding(sec_id, "ERROR", "oops"). */
  method RecordFinding(store: AuditDb, sid: int, ghost before: Tables)
    requires store.Valid() && sid == 1 && store.db == before && before.HasSection(sid)
    modifies store, store.pool
    ensures store.Valid() && store.startTimes == old(store.startTimes) && store.clock == old(store.clock)
    ensures store.db == InsertFindingRow(before, sid, "ERROR", "oops").0
  {
    assert ValidateNonEmpty(PyStr("ERROR"), "severity").Pass? by {
      assert !IsSpace("ERROR"[0]);
    }
    assert ValidateNonEmpty(PyStr("oops"), "message").Pass? by {
      assert !IsSpace("oops"[0]);
    }
    assert AuditDb.InsertFindingCheck(PyInt(sid), PyStr("ERROR"), PyStr("oops")).Pass?;
    assert FitsSqliteInteger(PyInt(sid).IntValue());
    var r := store.InsertFinding(PyInt(sid), PyStr("ERROR"), PyStr("oops"));
    assert old(store.db).HasSection(PyInt(sid).IntValue());
    assert r == Pass;
  }

  /** insert_stat(sec_id, "k", "v"). */
  method RecordStat(store: AuditDb, sid: int, ghost before: Tables)
    requires store.Valid() && sid == 1 && store.db == before && before.HasSection(sid)
    modifies store, store.pool
    ensures store.Valid() && store.startTimes == old(store.startTimes) && store.clock == old(store.clock)
    ensures store.db == InsertStatRow(before, sid, "k", "v")
  {
    assert ValidateNonEmpty(PyStr("k"), "key").Pass? by {
      assert !IsSpace("k"[0]);
    }
    assert AuditDb.InsertStatCheck(PyInt(sid), PyStr("k")).Pass?;
    assert FitsSqliteInteger(PyInt(sid).IntValue());
    var r := store.InsertStat(PyInt(sid), PyStr("k"), "v");
    assert old(store.db).HasSection(PyInt(sid).IntValue());
  }

  /** start_section(run_id, name) on a store with no section under way. */
  method StartNamed(store: AuditDb, runId: int, name: string, start: nat, ghost before: Tables) returns (sid: int)
    requires store.Valid() && store.db == before && before.HasRun(runId) && 1 <= runId && FitsSqliteInteger(runId)
    requires ValidateNonEmpty(PyStr(name), "name").Pass?
    requires store.startTimes == map[] && store.clock <= start
    modifies store, store.pool
    ensures store.Valid() && store.clock == start
    ensures (store.db, sid) == InsertSectionRow(before, runId, name)
    ensures store.startTimes == map[sid := start]
  {
    assert AuditDb.StartSectionCheck(PyInt(runId), PyStr(name)).Pass?;
    var started := store.StartSection(PyInt(runId), PyStr(name), start);
    sid := started.value;
  }

  /** complete_section(sec_id), `finish - start` after the section started. */
  method CompleteExample(store: AuditDb, sid: int, start: nat, finish: nat, ghost before: Tables)
    requires store.Valid() && store.db == before && 1 <= sid && FitsSqliteInteger(sid)
    requires store.startTimes == map[sid := start] && store.clock == start <= finish
    modifies store, store.pool
    ensures store.Valid() && store.startTimes == map[] && store.clock == finish
    ensures store.db == UpdateSectionComplete(before, sid, Some(finish - start))
  {
    assert ValidatePositiveInt(PyInt(sid), "section_id").Pass?;
    var r := store.CompleteSection(PyInt(sid), finish);
    assert sid in old(store.startTimes) && old(store.startTimes)[sid] == start;
  }

  /** create_run(), then start_section(run_id, name) and complete_section(sec_id). */
  method RunWithOneSection(store: AuditDb, startedAt: Timestamp, name: string, start: nat, finish: nat,
                           ghost before: Tables)
    returns (runId: int)
    requires store.Valid() && store.db == before && store.startTimes == map[]
    requires store.clock <= start <= finish
    requires ValidateNonEmpty(PyStr(name), "name").Pass?
    requires FitsSqliteInteger(before.runSeq + 1) && FitsSqliteInteger(before.sectionSeq + 1)
    modifies store, store.pool
    ensures store.Valid() && store.startTimes == map[] && store.clock == finish
    ensures runId == before.runSeq + 1 && store.db.runSeq == runId && store.db.sectionSeq == before.sectionSeq + 1
    ensures store.db.runs == before.runs + [RunRow(runId, startedAt, None, None, None, None, RunInProgress)]
  {
    runId := store.CreateRun(startedAt, None, None, None);
    var sid := StartNamed(store, runId, name, start, store.db);
    CompleteExample(store, sid, start, finish, store.db);
  }

  /** fetch_last_run on a freshly initialised store reports nothing. */
  method LastRunOfEmptyStore(path: Path) returns (last: Option<RunView>)
    ensures last == None
  {
    var store := new AuditDb(path);
    last := FetchLastRun(store.db);
  }

  /** Two runs, each with one section started and completed: fetch_last_run reports the
      second run. */
  method LatestRunReported(path: Path, firstAt: Timestamp, secondAt: Timestamp,
                           start1: nat, finish1: nat, start2: nat, finish2: nat)
    returns (run1: int, run2: int, last: Option<RunView>)
    requires start1 <= finish1 <= start2 <= finish2
    ensures run1 == 1 && run2 == 2
    ensures last.Some? && last.value.id == run2 && last.value.startedAt == secondAt
  {
    var store := new AuditDb(path);
    assert ValidateNonEmpty(PyStr("One"), "name").Pass? by {
      assert !IsSpace("One"[0]);
    }
    assert ValidateNonEmpty(PyStr("Two"), "name").Pass? by {
      assert !IsSpace("Two"[0]);
    }
    run1 := RunWithOneSection(store, firstAt, "One", start1, finish1, store.db);
    run2 := RunWithOneSection(store, secondAt, "Two", start2, finish2, store.db);
    last := FetchLastRun(store.db);
  }

  /** A run created with its domain, CLI arguments and skipped services, with section
      "Example" started and completed, then finalized with status "PASS": fetch_run reports
      the metadata, the status, the completion time and the section. */
  method MetadataAndFinalize(path: Path, startedAt: Timestamp, completedAt: Timestamp,
                             cliArgsJson: string, skippedServicesJson: string, start: nat, finish: nat)
    returns (fetched: Option<RunView>)
    requires start <= finish
    ensures fetched == Some(RunView(1, startedAt, Some(completedAt), Some("example.com"),
      Some(cliArgsJson), Some(skippedServicesJson), "PASS",
      [SectionView(1, "Example", SectionComplete, Some(finish - start), [], [])]))
  {
    var store := new AuditDb(path);
    var runId := store.CreateRun(startedAt, Some("example.com"), Some(cliArgsJson), Some(skippedServicesJson));
    assert ValidateNonEmpty(PyStr("Example"), "name").Pass? by {
      assert !IsSpace("Example"[0]);
    }
    var sec := StartNamed(store, runId, "Example", start, store.db);
    CompleteExample(store, sec, start, finish, store.db);
    var outcome := store.FinalizeRun(runId, "PASS", completedAt);
    fetched := FetchRun(store.db, runId);
    FinalizedSingleSectionRoundTrip(Initialized, startedAt, Some("example.com"), Some(cliArgsJson),
      Some(skippedServicesJson), "Example", Some(finish - start), completedAt, "PASS");
  }

  /** start_section(0, "name") raises ValueError before touching the store. */
  method StartSectionRejectsZero(path: Path) returns (r: Result<int>)
    ensures r.Err? && r.error.ValueError?
  {
    var store := new AuditDb(path);
    assert AuditDb.StartSectionCheck(PyInt(0), PyStr("name")).Fail?;
    r := store.StartSection(PyInt(0), PyStr("name"), 0);
  }

  /** complete_section(-1) raises ValueError. */
  method CompleteSectionRejectsNegative(path: Path) returns (r: Outcome)
    ensures r.Fail? && r.error.ValueError?
  {
    var store := new AuditDb(path);
    assert ValidatePositiveInt(PyInt(-1), "section_id").Fail?;
    r := store.CompleteSection(PyInt(-1), 0);
  }

  /** start_section(2**63, "name") passes validation, but sqlite3 cannot bind the run id:
      OverflowError escapes and no section is added. */
  method StartSectionOverflows(path: Path) returns (r: Result<int>, sections: seq<SectionRow>)
    ensures r == Err(IntTooLarge) && sections == []
  {
    var store := new AuditDb(path);
    assert ValidateNonEmpty(PyStr("name"), "name").Pass? by {
      assert !IsSpace("name"[0]);
    }
    assert AuditDb.StartSectionCheck(PyInt(0x8000_0000_0000_0000), PyStr("name")).Pass?;
    assert !FitsSqliteInteger(PyInt(0x8000_0000_0000_0000).IntValue());
    r := store.StartSection(PyInt(0x8000_0000_0000_0000), PyStr("name"), 0);
    sections := store.db.sections;
  }

  /** insert_raw(1, "not bytes") raises ValueError. */
  method InsertRawRejectsText(path: Path) returns (r: Outcome)
    ensures r == Fail(ValueError("raw_data must be bytes-like"))
  {
    var store := new AuditDb(path);
    assert AuditDb.InsertRawCheck(PyInt(1), PyStr("not bytes")).Fail?;
    r := store.InsertRaw(PyInt(1), PyStr("not bytes"));
  }
}
