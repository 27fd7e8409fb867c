/** The five tables of the audit database (run, section, finding, stat, raw_object)
    as values, and the effect of each SQL statement that db.py issues on them.
    SQLite itself is abstracted: a table is the sequence of its rows in rowid
    order, AUTOINCREMENT is a per-table counter (sqlite_sequence), and the
    declared foreign keys are the Linked() invariant. */
module Schema {
  import opened PyRuntime

  /** datetime.utcnow().isoformat(), kept opaque. */
  type Timestamp = string

  datatype RunRow = RunRow(
    id: int,
    startedAt: Timestamp,
    completedAt: Option<Timestamp>,
    domain: Option<string>,
    cliArgsJson: Option<string>,
    skippedServicesJson: Option<string>,
    overallStatus: string)

  /** duration_s, measured on the monotonic clock; NULL until completion. */
  datatype SectionRow = SectionRow(id: int, runId: int, name: string, status: string, duration: Option<int>)

  datatype FindingRow = FindingRow(id: int, sectionId: int, severity: string, message: string)

  /** The stat table has no id column; its rows are ordered by the implicit rowid. */
  datatype StatRow = StatRow(sectionId: int, key: string, value: string)

  datatype RawObjectRow = RawObjectRow(id: int, sectionId: int, data: seq<byte>)

  const RunInProgress: string := "IN_PROGRESS"
  const SectionInProgress: string := "in_progress"
  const SectionComplete: string := "complete"

  datatype Tables = Tables(
    runs: seq<RunRow>,
    sections: seq<SectionRow>,
    findings: seq<FindingRow>,
    stats: seq<StatRow>,
    rawObjects: seq<RawObjectRow>,
    runSeq: nat,
    sectionSeq: nat,
    findingSeq: nat,
    rawObjectSeq: nat,
    hasRawObjectTable: bool)
  {
    predicate HasRun(id: int) {
      exists i :: 0 <= i < |runs| && runs[i].id == id
    }

    predicate HasSection(id: int) {
      exists i :: 0 <= i < |sections| && sections[i].id == id
    }

    /** A rowid table is stored, and scanned, in ascending id order. */
    predicate Ordered() {
      RunIdsAscending(runs) && SectionIdsAscending(sections) &&
      FindingIdsAscending(findings) && RawObjectIdsAscending(rawObjects)
    }

    /** AUTOINCREMENT: every id lies between 1 and the table's sqlite_sequence entry. */
    predicate Sequenced() {
      && (forall i :: 0 <= i < |runs| ==> 1 <= runs[i].id <= runSeq)
      && (forall i :: 0 <= i < |sections| ==> 1 <= sections[i].id <= sectionSeq)
      && (forall i :: 0 <= i < |findings| ==> 1 <= findings[i].id <= findingSeq)
      && (forall i :: 0 <= i < |rawObjects| ==> 1 <= rawObjects[i].id <= rawObjectSeq)
    }

    /** The REFERENCES clauses of the schema, enforced because every connection turns foreign keys on. */
    predicate Linked() {
      && (forall i :: 0 <= i < |sections| ==> HasRun(sections[i].runId))
      && (forall i :: 0 <= i < |findings| ==> HasSection(findings[i].sectionId))
      && (forall i :: 0 <= i < |stats| ==> HasSection(stats[i].sectionId))
      && (forall i :: 0 <= i < |rawObjects| ==> HasSection(rawObjects[i].sectionId))
    }

    predicate WellFormed() {
      Ordered() && Sequenced() && Linked()
    }
  }

  predicate RunIdsAscending(rs: seq<RunRow>) {
    forall i, j :: 0 <= i < j < |rs| ==> rs[i].id < rs[j].id
  }

  predicate SectionIdsAscending(ss: seq<SectionRow>) {
    forall i, j :: 0 <= i < j < |ss| ==> ss[i].id < ss[j].id
  }

  predicate FindingIdsAscending(fs: seq<FindingRow>) {
    forall i, j :: 0 <= i < j < |fs| ==> fs[i].id < fs[j].id
  }

  predicate RawObjectIdsAscending(os: seq<RawObjectRow>) {
    forall i, j :: 0 <= i < j < |os| ==> os[i].id < os[j].id
  }

  /** The database right after the schema has been created: five empty tables. */
  const Initialized: Tables := Tables([], [], [], [], [], 0, 0, 0, 0, true)

  lemma InitializedWellFormed()
    ensures Initialized.WellFormed() && Initialized.hasRawObjectTable
  {
  }

  /** INSERT INTO run (...) VALUES (...): the new tables and cur.lastrowid. */
  function InsertRunRow(t: Tables, startedAt: Timestamp, domain: Option<string>,
                        cliArgsJson: Option<string>, skippedServicesJson: Option<string>): (r: (Tables, int))
    ensures t.WellFormed() ==> r.0.WellFormed()
    ensures t.Sequenced() ==> forall i :: 0 <= i < |t.runs| ==> t.runs[i].id < r.1
    ensures r.0.HasRun(r.1)
    ensures r.0.runs == t.runs + [RunRow(r.1, startedAt, None, domain, cliArgsJson, skippedServicesJson, RunInProgress)]
    ensures r.0.sections == t.sections && r.0.findings == t.findings && r.0.stats == t.stats
    ensures r.0.rawObjects == t.rawObjects && r.0.hasRawObjectTable == t.hasRawObjectTable
    ensures r.0.sectionSeq == t.sectionSeq
  {
    var id := t.runSeq + 1;
    var t' := t.(runs := t.runs + [RunRow(id, startedAt, None, domain, cliArgsJson, skippedServicesJson, RunInProgress)],
                 runSeq := id);
    assert t.WellFormed() ==> t'.Linked() by {
      if t.WellFormed() {
        forall i | 0 <= i < |t'.sections| ensures t'.HasRun(t'.sections[i].runId) {
          var k :| 0 <= k < |t.runs| && t.runs[k].id == t.sections[i].runId;
          assert t'.runs[k] == t.runs[k];
        }
      }
    }
    assert t'.runs[|t.runs|].id == id;
    (t', id)
  }

  /** INSERT INTO section (run_id, name, status) VALUES (?, ?, 'in_progress'), once the
      foreign key on run_id is known to hold. */
  function InsertSectionRow(t: Tables, runId: int, name: string): (r: (Tables, int))
    requires t.HasRun(runId)
    ensures t.WellFormed() ==> r.0.WellFormed()
    ensures t.Sequenced() ==> forall i :: 0 <= i < |t.sections| ==> t.sections[i].id < r.1
    ensures r.0.HasSection(r.1)
    ensures r.0.sections == t.sections + [SectionRow(r.1, runId, name, SectionInProgress, None)]
    ensures r.0.runs == t.runs && r.0.findings == t.findings && r.0.stats == t.stats
    ensures r.0.rawObjects == t.rawObjects && r.0.hasRawObjectTable == t.hasRawObjectTable
  {
    var id := t.sectionSeq + 1;
    var t' := t.(sections := t.sections + [SectionRow(id, runId, name, SectionInProgress, None)],
                 sectionSeq := id);
    assert t.WellFormed() ==> t'.Linked() by {
      if t.WellFormed() {
        assert forall i :: 0 <= i < |t.sections| ==> t'.sections[i] == t.sections[i];
        forall s | t.HasSection(s) ensures t'.HasSection(s) {
          var k :| 0 <= k < |t.sections| && t.sections[k].id == s;
          assert t'.sections[k] == t.sections[k];
        }
      }
    }
    assert t'.sections[|t.sections|].id == id;
    (t', id)
  }

  /** The rows of the section table after UPDATE section SET status = 'complete', duration_s = ? WHERE id = ? */
  function CompleteRows(ss: seq<SectionRow>, sectionId: int, duration: Option<int>): (r: seq<SectionRow>)
    ensures |r| == |ss|
    ensures forall i :: 0 <= i < |ss| ==> r[i].id == ss[i].id && r[i].runId == ss[i].runId && r[i].name == ss[i].name
  {
    seq(|ss|, i requires 0 <= i < |ss| =>
      if ss[i].id == sectionId then ss[i].(status := SectionComplete, duration := duration) else ss[i])
  }

  /** UPDATE section SET status = 'complete', duration_s = ? WHERE id = ?: the matching row
      (if any) is completed with the given duration, and no other row or table changes. */
  function UpdateSectionComplete(t: Tables, sectionId: int, duration: Option<int>): (r: Tables)
    ensures t.WellFormed() ==> r.WellFormed()
    ensures |r.sections| == |t.sections|
    ensures forall i :: 0 <= i < |t.sections| ==>
      r.sections[i] == if t.sections[i].id == sectionId
                       then t.sections[i].(status := SectionComplete, duration := duration)
                       else t.sections[i]
    ensures r.runs == t.runs && r.findings == t.findings && r.stats == t.stats
    ensures r.rawObjects == t.rawObjects && r.hasRawObjectTable == t.hasRawObjectTable
    ensures r.sectionSeq == t.sectionSeq
  {
    var t' := t.(sections := CompleteRows(t.sections, sectionId, duration));
    assert forall s :: t.HasSection(s) ==> t'.HasSection(s) by {
      forall s | t.HasSection(s) ensures t'.HasSection(s) {
        var k :| 0 <= k < |t.sections| && t.sections[k].id == s;
        assert t'.sections[k].id == s;
      }
    }
    t'
  }

  /** INSERT INTO finding (section_id, severity, message) VALUES (?, ?, ?), once the
      foreign key on section_id is known to hold. */
  function InsertFindingRow(t: Tables, sectionId: int, severity: string, message: string): (r: (Tables, int))
    requires t.HasSection(sectionId)
    ensures t.WellFormed() ==> r.0.WellFormed()
    ensures t.Sequenced() ==> forall i :: 0 <= i < |t.findings| ==> t.findings[i].id < r.1
    ensures r.0.findings == t.findings + [FindingRow(r.1, sectionId, severity, message)]
    ensures r.0.runs == t.runs && r.0.sections == t.sections && r.0.stats == t.stats
    ensures r.0.rawObjects == t.rawObjects && r.0.hasRawObjectTable == t.hasRawObjectTable
    ensures r.0.sectionSeq == t.sectionSeq
  {
    var id := t.findingSeq + 1;
    var t' := t.(findings := t.findings + [FindingRow(id, sectionId, severity, message)], findingSeq := id);
    FindingAppendWellFormed(t, FindingRow(id, sectionId, severity, message));
    (t', id)
  }

  lemma FindingAppendWellFormed(t: Tables, row: FindingRow)
    requires t.HasSection(row.sectionId) && row.id == t.findingSeq + 1
    ensures t.WellFormed() ==> t.(findings := t.findings + [row], findingSeq := row.id).WellFormed()
  {
    var t' := t.(findings := t.findings + [row], findingSeq := row.id);
    if t.WellFormed() {
      assert FindingIdsAscending(t'.findings) by {
        forall i, j | 0 <= i < j < |t'.findings| ensures t'.findings[i].id < t'.findings[j].id {
          if j < |t.findings| {
            assert t'.findings[i] == t.findings[i] && t'.findings[j] == t.findings[j];
          } else {
            assert t'.findings[i] == t.findings[i];
          }
        }
      }
      assert t'.Sequenced();
      assert t'.Linked() by {
        forall i | 0 <= i < |t'.findings| ensures t'.HasSection(t'.findings[i].sectionId) {
          if i < |t.findings| {
            assert t'.findings[i] == t.findings[i];
          }
        }
      }
    }
  }

  /** INSERT INTO stat (section_id, key, value) VALUES (?, ?, ?), once the foreign key
      on section_id is known to hold. */
  function InsertStatRow(t: Tables, sectionId: int, key: string, value: string): (r: Tables)
    requires t.HasSection(sectionId)
    ensures t.WellFormed() ==> r.WellFormed()
    ensures r.stats == t.stats + [StatRow(sectionId, key, value)]
    ensures r.runs == t.runs && r.sections == t.sections && r.findings == t.findings
    ensures r.rawObjects == t.rawObjects && r.hasRawObjectTable == t.hasRawObjectTable
    ensures r.sectionSeq == t.sectionSeq
  {
    t.(stats := t.stats + [StatRow(sectionId, key, value)])
  }

  /** INSERT INTO raw_object (section_id, data) VALUES (?, ?), once the foreign key on
      section_id is known to hold. */
  function InsertRawObjectRow(t: Tables, sectionId: int, data: seq<byte>): (r: (Tables, int))
    requires t.HasSection(sectionId)
    ensures t.WellFormed() ==> r.0.WellFormed()
    ensures t.Sequenced() ==> forall i :: 0 <= i < |t.rawObjects| ==> t.rawObjects[i].id < r.1
    ensures r.0.rawObjects == t.rawObjects + [RawObjectRow(r.1, sectionId, data)]
    ensures r.0.runs == t.runs && r.0.sections == t.sections && r.0.findings == t.findings
    ensures r.0.stats == t.stats && r.0.hasRawObjectTable == t.hasRawObjectTable
    ensures r.0.sectionSeq == t.sectionSeq
  {
    var id := t.rawObjectSeq + 1;
    var t' := t.(rawObjects := t.rawObjects + [RawObjectRow(id, sectionId, data)], rawObjectSeq := id);
    RawObjectAppendWellFormed(t, RawObjectRow(id, sectionId, data));
    (t', id)
  }

  lemma RawObjectAppendWellFormed(t: Tables, row: RawObjectRow)
    requires t.HasSection(row.sectionId) && row.id == t.rawObjectSeq + 1
    ensures t.WellFormed() ==> t.(rawObjects := t.rawObjects + [row], rawObjectSeq := row.id).WellFormed()
  {
    var t' := t.(rawObjects := t.rawObjects + [row], rawObjectSeq := row.id);
    if t.WellFormed() {
      assert RawObjectIdsAscending(t'.rawObjects) by {
        forall i, j | 0 <= i < j < |t'.rawObjects| ensures t'.rawObjects[i].id < t'.rawObjects[j].id {
          if j < |t.rawObjects| {
            assert t'.rawObjects[i] == t.rawObjects[i] && t'.rawObjects[j] == t.rawObjects[j];
          } else {
            assert t'.rawObjects[i] == t.rawObjects[i];
          }
        }
      }
      assert t'.Sequenced();
      assert t'.Linked() by {
        forall i | 0 <= i < |t'.rawObjects| ensures t'.HasSection(t'.rawObjects[i].sectionId) {
          if i < |t.rawObjects| {
            assert t'.rawObjects[i] == t.rawObjects[i];
          }
        }
      }
    }
  }

  /** UPDATE run SET completed_at = ?, overall_status = ? WHERE id = ? */
  function UpdateRunFinal(t: Tables, runId: int, completedAt: Timestamp, overallStatus: string): (r: Tables)
    ensures t.WellFormed() ==> r.WellFormed()
    ensures |r.runs| == |t.runs|
    ensures forall i :: 0 <= i < |t.runs| ==>
      r.runs[i] == if t.runs[i].id == runId
                   then t.runs[i].(completedAt := Some(completedAt), overallStatus := overallStatus)
                   else t.runs[i]
    ensures r.sections == t.sections && r.findings == t.findings && r.stats == t.stats
    ensures r.rawObjects == t.rawObjects && r.hasRawObjectTable == t.hasRawObjectTable
    ensures r.sectionSeq == t.sectionSeq
  {
    var rs := seq(|t.runs|, i requires 0 <= i < |t.runs| =>
                if t.runs[i].id == runId
                then t.runs[i].(completedAt := Some(completedAt), overallStatus := overallStatus)
                else t.runs[i]);
    var t' := t.(runs := rs);
    assert forall i :: 0 <= i < |rs| ==> rs[i].id == t.runs[i].id;
    assert forall s :: t.HasRun(s) ==> t'.HasRun(s) by {
      forall s | t.HasRun(s) ensures t'.HasRun(s) {
        var k :| 0 <= k < |t.runs| && t.runs[k].id == s;
        assert t'.runs[k].id == s;
      }
    }
    t'
  }

  /** finalize_run keeps no history: a second call overwrites the first (last write wins). */
  lemma {:induction false} FinalizeLastWriteWins(t: Tables, runId: int, c1: Timestamp, s1: string, c2: Timestamp, s2: string)
    ensures UpdateRunFinal(UpdateRunFinal(t, runId, c1, s1), runId, c2, s2) == UpdateRunFinal(t, runId, c2, s2)
  {
    var a := UpdateRunFinal(UpdateRunFinal(t, runId, c1, s1), runId, c2, s2);
    var b := UpdateRunFinal(t, runId, c2, s2);
    assert a.runs == b.runs by {
      forall i | 0 <= i < |t.runs| ensures a.runs[i] == b.runs[i] {
        assert UpdateRunFinal(t, runId, c1, s1).runs[i].id == t.runs[i].id;
      }
    }
  }

  /** Completing a section again overwrites its status and duration (the previous duration is lost). */
  lemma {:induction false} CompleteLastWriteWins(t: Tables, sectionId: int, d1: Option<int>, d2: Option<int>)
    ensures UpdateSectionComplete(UpdateSectionComplete(t, sectionId, d1), sectionId, d2)
         == UpdateSectionComplete(t, sectionId, d2)
  {
    var a := UpdateSectionComplete(UpdateSectionComplete(t, sectionId, d1), sectionId, d2);
    var b := UpdateSectionComplete(t, sectionId, d2);
    assert a.sections == b.sections by {
      forall i | 0 <= i < |t.sections| ensures a.sections[i] == b.sections[i] {
        assert UpdateSectionComplete(t, sectionId, d1).sections[i].id == t.sections[i].id;
      }
    }
  }

  /** complete_section on an id that names no section matches no row: the tables are unchanged. */
  lemma CompleteUnknownSection(t: Tables, sectionId: int, duration: Option<int>)
    requires !t.HasSection(sectionId)
    ensures UpdateSectionComplete(t, sectionId, duration) == t
  {
    var r := UpdateSectionComplete(t, sectionId, duration);
    assert r.sections == t.sections by {
      forall i | 0 <= i < |t.sections| ensures r.sections[i] == t.sections[i] {
        assert t.sections[i].id != sectionId;
      }
    }
  }

  /** finalize_run on an id that names no run matches no row: the tables are unchanged. */
  lemma FinalizeUnknownRun(t: Tables, runId: int, completedAt: Timestamp, overallStatus: string)
    requires !t.HasRun(runId)
    ensures UpdateRunFinal(t, runId, completedAt, overallStatus) == t
  {
    var r := UpdateRunFinal(t, runId, completedAt, overallStatus);
    assert r.runs == t.runs by {
      forall i | 0 <= i < |t.runs| ensures r.runs[i] == t.runs[i] {
        assert t.runs[i].id != runId;
      }
    }
  }
}
