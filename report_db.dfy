/** The read side used by reports: each query of report_db.py as a pure function of
    the tables. A table is held in rowid order, so `ORDER BY id` and `ORDER BY rowid`
    are the order in which the filters below visit the rows. An unknown run yields
    None, the model of the empty dict. */
module ReportDb {
  import opened PyRuntime
  import opened Schema

  /** One entry of a section's "findings" list: severity and message. */
  datatype FindingView = FindingView(severity: string, message: string)

  /** One entry of a section's "stats" list: key and value. */
  datatype StatView = StatView(key: string, value: string)

  /** One entry of a run's "sections" list: the selected columns plus findings and stats. */
  datatype SectionView = SectionView(
    id: int, name: string, status: string, duration: Option<int>,
    findings: seq<FindingView>, stats: seq<StatView>)

  /** The seven columns of a run row plus its sections. */
  datatype RunView = RunView(
    id: int,
    startedAt: Timestamp,
    completedAt: Option<Timestamp>,
    domain: Option<string>,
    cliArgsJson: Option<string>,
    skippedServicesJson: Option<string>,
    overallStatus: string,
    sections: seq<SectionView>)

  /** One row of raw_object as a dict keyed by its columns (id, section_id, data). */
  datatype RawObjectView = RawObjectView(id: int, sectionId: int, data: seq<byte>)

  // ---------------------------------------------------------------- filters (WHERE ...)

  /** The sections of one run, in table order. */
  function SectionsOfRun(ss: seq<SectionRow>, runId: int): (r: seq<SectionRow>)
    ensures forall x :: x in r <==> x in ss && x.runId == runId
    ensures SectionIdsAscending(ss) ==> SectionIdsAscending(r)
  {
    if ss == [] then []
    else
      var init := SectionsOfRun(ss[..|ss| - 1], runId);
      var last := ss[|ss| - 1];
      assert forall x :: x in ss <==> x in ss[..|ss| - 1] || x == last;
      if last.runId == runId then init + [last] else init
  }

  /** The findings of one section, in table order. */
  function FindingsOfSection(fs: seq<FindingRow>, sectionId: int): (r: seq<FindingRow>)
    ensures forall x :: x in r <==> x in fs && x.sectionId == sectionId
    ensures FindingIdsAscending(fs) ==> FindingIdsAscending(r)
  {
    if fs == [] then []
    else
      var init := FindingsOfSection(fs[..|fs| - 1], sectionId);
      var last := fs[|fs| - 1];
      assert forall x :: x in fs <==> x in fs[..|fs| - 1] || x == last;
      if last.sectionId == sectionId then init + [last] else init
  }

  /** The stats of one section, in table order. */
  function StatsOfSection(ss: seq<StatRow>, sectionId: int): (r: seq<StatRow>)
    ensures forall x :: x in r <==> x in ss && x.sectionId == sectionId
    ensures |r| <= |ss|
  {
    if ss == [] then []
    else
      var init := StatsOfSection(ss[..|ss| - 1], sectionId);
      var last := ss[|ss| - 1];
      assert forall x :: x in ss <==> x in ss[..|ss| - 1] || x == last;
      if last.sectionId == sectionId then init + [last] else init
  }

  /** Stats keep insertion order: filtering a concatenation concatenates the filtered parts,
      so duplicated keys and values come back once per insert, in the order inserted. */
  lemma {:induction false} StatsOfSectionConcat(a: seq<StatRow>, b: seq<StatRow>, sectionId: int)
    ensures StatsOfSection(a + b, sectionId) == StatsOfSection(a, sectionId) + StatsOfSection(b, sectionId)
    decreases |b|
  {
    if b == [] {
      assert a + b == a;
    } else {
      var b' := b[..|b| - 1];
      assert (a + b)[..|a + b| - 1] == a + b';
      StatsOfSectionConcat(a, b', sectionId);
    }
  }

  /** The raw objects of one section, in table order. */
  function RawObjectsOfSection(os: seq<RawObjectRow>, sectionId: int): (r: seq<RawObjectRow>)
    ensures forall x :: x in r <==> x in os && x.sectionId == sectionId
    ensures RawObjectIdsAscending(os) ==> RawObjectIdsAscending(r)
  {
    if os == [] then []
    else
      var init := RawObjectsOfSection(os[..|os| - 1], sectionId);
      var last := os[|os| - 1];
      assert forall x :: x in os <==> x in os[..|os| - 1] || x == last;
      if last.sectionId == sectionId then init + [last] else init
  }

  /** SELECT ... FROM run ORDER BY id DESC LIMIT 1 */
  function LatestRun(rs: seq<RunRow>): (r: Option<RunRow>)
    ensures r.None? <==> rs == []
    ensures r.Some? ==> r.value in rs && forall x :: x in rs ==> x.id <= r.value.id
  {
    if rs == [] then None
    else
      var init := LatestRun(rs[..|rs| - 1]);
      var last := rs[|rs| - 1];
      assert forall x :: x in rs <==> x in rs[..|rs| - 1] || x == last;
      if init.Some? && init.value.id > last.id then init else Some(last)
  }

  /** SELECT ... FROM run WHERE id = ? */
  function RunWithId(rs: seq<RunRow>, runId: int): (r: Option<RunRow>)
    ensures r.None? <==> forall x :: x in rs ==> x.id != runId
    ensures r.Some? ==> r.value in rs && r.value.id == runId
  {
    if rs == [] then None
    else if rs[0].id == runId then Some(rs[0])
    else
      assert forall x :: x in rs <==> x == rs[0] || x in rs[1..];
      RunWithId(rs[1..], runId)
  }

  // ---------------------------------------------------------------- queries

  /** fetch_findings: the section's findings in id order, projected to severity and message. */
  function FetchFindings(t: Tables, sectionId: int): (r: seq<FindingView>)
    ensures |r| == |FindingsOfSection(t.findings, sectionId)|
    ensures forall i :: 0 <= i < |r| ==>
      r[i] == FindingView(FindingsOfSection(t.findings, sectionId)[i].severity,
                          FindingsOfSection(t.findings, sectionId)[i].message)
  {
    var rows := FindingsOfSection(t.findings, sectionId);
    seq(|rows|, i requires 0 <= i < |rows| => FindingView(rows[i].severity, rows[i].message))
  }

  /** fetch_stats: the section's stats in rowid order, projected to key and value. */
  function FetchStats(t: Tables, sectionId: int): (r: seq<StatView>)
    ensures |r| == |StatsOfSection(t.stats, sectionId)|
    ensures forall i :: 0 <= i < |r| ==>
      r[i] == StatView(StatsOfSection(t.stats, sectionId)[i].key, StatsOfSection(t.stats, sectionId)[i].value)
  {
    var rows := StatsOfSection(t.stats, sectionId);
    seq(|rows|, i requires 0 <= i < |rows| => StatView(rows[i].key, rows[i].value))
  }

  /** One iteration of the loop in fetch_sections: the row's columns plus its findings and stats. */
  function ViewSection(t: Tables, row: SectionRow): SectionView {
    SectionView(row.id, row.name, row.status, row.duration, FetchFindings(t, row.id), FetchStats(t, row.id))
  }

  /** The loop of fetch_sections over the selected rows. */
  function ViewSections(t: Tables, rows: seq<SectionRow>): (r: seq<SectionView>)
    ensures |r| == |rows| && forall i :: 0 <= i < |rows| ==> r[i] == ViewSection(t, rows[i])
  {
    seq(|rows|, i requires 0 <= i < |rows| => ViewSection(t, rows[i]))
  }

  /** fetch_sections: the run's sections in ascending id order, each with its findings and stats. */
  function FetchSections(t: Tables, runId: int): (r: seq<SectionView>)
    ensures |r| == |SectionsOfRun(t.sections, runId)|
    ensures forall i :: 0 <= i < |r| ==> r[i] == ViewSection(t, SectionsOfRun(t.sections, runId)[i])
    ensures t.Ordered() ==> forall i, j :: 0 <= i < j < |r| ==> r[i].id < r[j].id
  {
    ViewSections(t, SectionsOfRun(t.sections, runId))
  }

  function ViewRun(t: Tables, row: RunRow): RunView {
    RunView(row.id, row.startedAt, row.completedAt, row.domain, row.cliArgsJson,
            row.skippedServicesJson, row.overallStatus, FetchSections(t, row.id))
  }

  /** fetch_last_run: the run with the largest id and its sections; None for an empty table. */
  function FetchLastRun(t: Tables): (r: Option<RunView>)
    ensures r.None? <==> t.runs == []
    ensures r.Some? ==> exists k :: 0 <= k < |t.runs| && r.value == ViewRun(t, t.runs[k])
    ensures r.Some? ==> forall k :: 0 <= k < |t.runs| ==> t.runs[k].id <= r.value.id
    ensures r.Some? && t.Ordered() ==> r.value == ViewRun(t, t.runs[|t.runs| - 1])
  {
    match LatestRun(t.runs)
    case None => None
    case Some(row) =>
      assert t.runs[|t.runs| - 1] in t.runs;
      Some(ViewRun(t, row))
  }

  /** fetch_run: the run with the given id and its sections; None when there is none. */
  function FetchRun(t: Tables, runId: int): (r: Option<RunView>)
    ensures r.None? <==> !t.HasRun(runId)
    ensures r.Some? ==> r.value.id == runId && r.value.sections == FetchSections(t, runId)
    ensures r.Some? ==> exists k :: 0 <= k < |t.runs| && t.runs[k].id == runId && r.value == ViewRun(t, t.runs[k])
  {
    match RunWithId(t.runs, runId)
    case None =>
      assert forall k :: 0 <= k < |t.runs| ==> t.runs[k] in t.runs;
      None
    case Some(row) => Some(ViewRun(t, row))
  }

  /** fetch_raw_objects: [] when the raw_object table is missing, else the section's rows in rowid order. */
  function FetchRawObjects(t: Tables, sectionId: int): (r: seq<RawObjectView>)
    ensures !t.hasRawObjectTable ==> r == []
    ensures t.hasRawObjectTable ==> |r| == |RawObjectsOfSection(t.rawObjects, sectionId)|
    ensures t.hasRawObjectTable ==> forall i :: 0 <= i < |r| ==>
      var row := RawObjectsOfSection(t.rawObjects, sectionId)[i]; r[i] == RawObjectView(row.id, row.sectionId, row.data)
  {
    if !t.hasRawObjectTable then []
    else
      var rows := RawObjectsOfSection(t.rawObjects, sectionId);
      seq(|rows|, i requires 0 <= i < |rows| => RawObjectView(rows[i].id, rows[i].sectionId, rows[i].data))
  }

  // ---------------------------------------------------------------- write-then-read

  /** The findings a query returns depend on the finding table alone. */
  lemma FetchFindingsFrame(t: Tables, u: Tables, sectionId: int)
    requires t.findings == u.findings
    ensures FetchFindings(t, sectionId) == FetchFindings(u, sectionId)
  {
  }

  /** The section entries built from given rows depend on the finding and stat tables alone. */
  lemma {:induction false} ViewSectionsFrame(t: Tables, u: Tables, rows: seq<SectionRow>)
    requires t.findings == u.findings && t.stats == u.stats
    ensures ViewSections(t, rows) == ViewSections(u, rows)
  {
    var a, b := ViewSections(t, rows), ViewSections(u, rows);
    forall i | 0 <= i < |rows| ensures a[i] == b[i] {
      FetchFindingsFrame(t, u, rows[i].id);
    }
  }

  lemma {:induction false} ViewSectionsAppend(t: Tables, rows: seq<SectionRow>, row: SectionRow)
    ensures ViewSections(t, rows + [row]) == ViewSections(t, rows) + [ViewSection(t, row)]
  {
    var a, b := ViewSections(t, rows + [row]), ViewSections(t, rows) + [ViewSection(t, row)];
    forall i | 0 <= i < |a| ensures a[i] == b[i] {
      if i < |rows| { assert (rows + [row])[i] == rows[i]; }
    }
  }

  /** The sections a query returns depend on the section, finding and stat tables alone. */
  lemma {:induction false} FetchSectionsFrame(t: Tables, u: Tables, runId: int)
    requires t.sections == u.sections && t.findings == u.findings && t.stats == u.stats
    ensures FetchSections(t, runId) == FetchSections(u, runId)
  {
    ViewSectionsFrame(t, u, SectionsOfRun(t.sections, runId));
  }

  lemma {:induction false} SectionsOfRunAppend(ss: seq<SectionRow>, row: SectionRow, runId: int)
    ensures SectionsOfRun(ss + [row], runId) == SectionsOfRun(ss, runId) + (if row.runId == runId then [row] else [])
  {
    assert (ss + [row])[..|ss|] == ss;
  }

  lemma {:induction false} FindingsOfSectionAppend(fs: seq<FindingRow>, row: FindingRow, sectionId: int)
    ensures FindingsOfSection(fs + [row], sectionId)
         == FindingsOfSection(fs, sectionId) + (if row.sectionId == sectionId then [row] else [])
  {
    assert (fs + [row])[..|fs|] == fs;
  }

  lemma {:induction false} SectionsOfRunNone(ss: seq<SectionRow>, runId: int)
    requires forall i :: 0 <= i < |ss| ==> ss[i].runId != runId
    ensures SectionsOfRun(ss, runId) == []
  {
    if ss != [] { SectionsOfRunNone(ss[..|ss| - 1], runId); }
  }

  lemma {:induction false} FindingsOfSectionNone(fs: seq<FindingRow>, sectionId: int)
    requires forall i :: 0 <= i < |fs| ==> fs[i].sectionId != sectionId
    ensures FindingsOfSection(fs, sectionId) == []
  {
    if fs != [] { FindingsOfSectionNone(fs[..|fs| - 1], sectionId); }
  }

  lemma {:induction false} StatsOfSectionNone(ss: seq<StatRow>, sectionId: int)
    requires forall i :: 0 <= i < |ss| ==> ss[i].sectionId != sectionId
    ensures StatsOfSection(ss, sectionId) == []
  {
    if ss != [] { StatsOfSectionNone(ss[..|ss| - 1], sectionId); }
  }

  /** A run id above the sequence counter has no sections, because of the foreign key. */
  lemma FreshRunHasNoSections(t: Tables, runId: int)
    requires t.WellFormed() && runId > t.runSeq
    ensures SectionsOfRun(t.sections, runId) == []
  {
    forall i | 0 <= i < |t.sections| ensures t.sections[i].runId != runId {
      assert t.HasRun(t.sections[i].runId);
    }
    SectionsOfRunNone(t.sections, runId);
  }

  /** A section id above the sequence counter has no findings and no stats, because of the foreign keys. */
  lemma FreshSectionIsEmpty(t: Tables, sectionId: int)
    requires t.WellFormed() && sectionId > t.sectionSeq
    ensures FindingsOfSection(t.findings, sectionId) == []
    ensures StatsOfSection(t.stats, sectionId) == []
  {
    forall i | 0 <= i < |t.findings| ensures t.findings[i].sectionId != sectionId {
      assert t.HasSection(t.findings[i].sectionId);
    }
    forall i | 0 <= i < |t.stats| ensures t.stats[i].sectionId != sectionId {
      assert t.HasSection(t.stats[i].sectionId);
    }
    FindingsOfSectionNone(t.findings, sectionId);
    StatsOfSectionNone(t.stats, sectionId);
  }

  /** WHERE id = ? finds a row appended with an id no earlier row has. */
  lemma {:induction false} RunWithIdAppended(rs: seq<RunRow>, row: RunRow)
    requires forall k :: 0 <= k < |rs| ==> rs[k].id != row.id
    ensures RunWithId(rs + [row], row.id) == Some(row)
  {
    if rs != [] {
      assert (rs + [row])[1..] == rs[1..] + [row];
      RunWithIdAppended(rs[1..], row);
    }
  }

  /** create_run, then fetch_last_run: the new run, IN_PROGRESS, not completed, with no sections;
      fetch_run on the returned id gives the same. */
  lemma {:induction false} CreateRunThenFetch(t: Tables, startedAt: Timestamp, domain: Option<string>,
                                             cliArgsJson: Option<string>, skippedServicesJson: Option<string>)
    requires t.WellFormed()
    ensures var (t', runId) := InsertRunRow(t, startedAt, domain, cliArgsJson, skippedServicesJson);
      && FetchLastRun(t') == Some(RunView(runId, startedAt, None, domain, cliArgsJson, skippedServicesJson, RunInProgress, []))
      && FetchRun(t', runId) == FetchLastRun(t')
  {
    var (t', runId) := InsertRunRow(t, startedAt, domain, cliArgsJson, skippedServicesJson);
    FreshRunHasNoSections(t, runId);
    FetchSectionsFrame(t', t, runId);
    RunWithIdAppended(t.runs, t'.runs[|t.runs|]);
  }

  /** start_section, then fetch_sections: the run's list gains one in-progress entry, with no
      findings or stats, at its end. */
  lemma {:induction false} StartSectionThenFetch(t: Tables, runId: int, name: string)
    requires t.WellFormed() && t.HasRun(runId)
    ensures var (t', sectionId) := InsertSectionRow(t, runId, name);
      FetchSections(t', runId) == FetchSections(t, runId) + [SectionView(sectionId, name, SectionInProgress, None, [], [])]
  {
    var (t', sectionId) := InsertSectionRow(t, runId, name);
    var row := SectionRow(sectionId, runId, name, SectionInProgress, None);
    SectionsOfRunAppend(t.sections, row, runId);
    ViewSectionsAppend(t', SectionsOfRun(t.sections, runId), row);
    ViewSectionsFrame(t', t, SectionsOfRun(t.sections, runId));
    FreshSectionIsEmpty(t, sectionId);
  }

  /** start_section leaves the section list of every other run unchanged. */
  lemma {:induction false} StartSectionOtherRuns(t: Tables, runId: int, name: string, other: int)
    requires t.HasRun(runId) && other != runId
    ensures FetchSections(InsertSectionRow(t, runId, name).0, other) == FetchSections(t, other)
  {
    var (t', sectionId) := InsertSectionRow(t, runId, name);
    SectionsOfRunAppend(t.sections, t'.sections[|t.sections|], other);
    ViewSectionsFrame(t', t, SectionsOfRun(t.sections, other));
  }

  /** insert_finding, then fetch_findings: the section's list gains the new finding at its end;
      every other section's list is unchanged. */
  lemma {:induction false} InsertFindingThenFetch(t: Tables, sectionId: int, severity: string, message: string)
    requires t.HasSection(sectionId)
    ensures var (t', _) := InsertFindingRow(t, sectionId, severity, message);
      && FetchFindings(t', sectionId) == FetchFindings(t, sectionId) + [FindingView(severity, message)]
      && forall other :: other != sectionId ==> FetchFindings(t', other) == FetchFindings(t, other)
  {
    var (t', id) := InsertFindingRow(t, sectionId, severity, message);
    FindingsOfSectionAppend(t.findings, t'.findings[|t.findings|], sectionId);
    forall other | other != sectionId ensures FetchFindings(t', other) == FetchFindings(t, other) {
      FindingsOfSectionAppend(t.findings, t'.findings[|t.findings|], other);
    }
  }

  /** insert_stat, then fetch_stats: the section's list gains the new stat at its end;
      every other section's list is unchanged. */
  lemma {:induction false} InsertStatThenFetch(t: Tables, sectionId: int, key: string, value: string)
    requires t.HasSection(sectionId)
    ensures var t' := InsertStatRow(t, sectionId, key, value);
      && FetchStats(t', sectionId) == FetchStats(t, sectionId) + [StatView(key, value)]
      && forall other :: other != sectionId ==> FetchStats(t', other) == FetchStats(t, other)
  {
    var t' := InsertStatRow(t, sectionId, key, value);
    assert t'.stats[..|t'.stats| - 1] == t.stats;
    forall other | other != sectionId ensures FetchStats(t', other) == FetchStats(t, other) {
      assert StatsOfSection(t'.stats, other) == StatsOfSection(t.stats, other);
    }
  }

  /** Completing rows commutes with selecting a run's rows. */
  lemma {:induction false} SectionsOfRunComplete(ss: seq<SectionRow>, runId: int, sectionId: int, duration: Option<int>)
    ensures SectionsOfRun(CompleteRows(ss, sectionId, duration), runId)
         == CompleteRows(SectionsOfRun(ss, runId), sectionId, duration)
  {
    if ss != [] {
      var n := |ss|;
      assert CompleteRows(ss, sectionId, duration)[..n - 1] == CompleteRows(ss[..n - 1], sectionId, duration);
      SectionsOfRunComplete(ss[..n - 1], runId, sectionId, duration);
      var init := SectionsOfRun(ss[..n - 1], runId);
      if ss[n - 1].runId == runId {
        assert CompleteRows(init + [ss[n - 1]], sectionId, duration)
            == CompleteRows(init, sectionId, duration) + [CompleteRows(ss, sectionId, duration)[n - 1]];
      }
    }
  }

  /** complete_section, then fetch_sections: the entry with that id reads "complete" with the
      recorded duration; every other entry, and the order, is unchanged. */
  lemma {:induction false} CompleteSectionThenFetch(t: Tables, runId: int, sectionId: int, duration: Option<int>)
    ensures var before, after := FetchSections(t, runId), FetchSections(UpdateSectionComplete(t, sectionId, duration), runId);
      && |after| == |before|
      && forall i :: 0 <= i < |before| ==>
           after[i] == if before[i].id == sectionId
                       then before[i].(status := SectionComplete, duration := duration)
                       else before[i]
  {
    var t' := UpdateSectionComplete(t, sectionId, duration);
    SectionsOfRunComplete(t.sections, runId, sectionId, duration);
    var rows := SectionsOfRun(t.sections, runId);
    var before, after := FetchSections(t, runId), FetchSections(t', runId);
    forall i | 0 <= i < |before|
      ensures after[i] == if before[i].id == sectionId
                          then before[i].(status := SectionComplete, duration := duration)
                          else before[i]
    {
      FetchFindingsFrame(t', t, rows[i].id);
    }
  }

  /** WHERE id = ? after the UPDATE of finalize_run: the first matching row, updated. */
  lemma {:induction false} RunWithIdFinal(t: Tables, runId: int, completedAt: Timestamp, overallStatus: string)
    ensures var after := RunWithId(UpdateRunFinal(t, runId, completedAt, overallStatus).runs, runId);
      var before := RunWithId(t.runs, runId);
      && after.Some? == before.Some?
      && (before.Some? ==> after.value == before.value.(completedAt := Some(completedAt), overallStatus := overallStatus))
    decreases |t.runs|
  {
    var t' := UpdateRunFinal(t, runId, completedAt, overallStatus);
    if t.runs != [] && t.runs[0].id != runId {
      var u := t.(runs := t.runs[1..]);
      assert UpdateRunFinal(u, runId, completedAt, overallStatus).runs == t'.runs[1..];
      RunWithIdFinal(u, runId, completedAt, overallStatus);
    }
  }

  /** finalize_run, then fetch_run: the same run with completed_at set and the given status;
      its sections are unchanged. */
  lemma {:induction false} FinalizeRunThenFetch(t: Tables, runId: int, completedAt: Timestamp, overallStatus: string)
    requires t.HasRun(runId)
    ensures var after := FetchRun(UpdateRunFinal(t, runId, completedAt, overallStatus), runId);
      && after.Some?
      && after.value == FetchRun(t, runId).value.(completedAt := Some(completedAt), overallStatus := overallStatus)
  {
    var t' := UpdateRunFinal(t, runId, completedAt, overallStatus);
    FetchSectionsFrame(t', t, runId);
    RunWithIdFinal(t, runId, completedAt, overallStatus);
  }

  lemma {:induction false} RawObjectsOfSectionAppend(os: seq<RawObjectRow>, row: RawObjectRow, sectionId: int)
    ensures RawObjectsOfSection(os + [row], sectionId)
         == RawObjectsOfSection(os, sectionId) + (if row.sectionId == sectionId then [row] else [])
  {
    assert (os + [row])[..|os|] == os;
  }

  /** insert_raw, then fetch_raw_objects: the section's list gains the new object, with its
      id and bytes, at its end; every other section's list is unchanged. */
  lemma {:induction false} InsertRawThenFetch(t: Tables, sectionId: int, data: seq<byte>)
    requires t.HasSection(sectionId) && t.hasRawObjectTable
    ensures var (t', id) := InsertRawObjectRow(t, sectionId, data);
      && FetchRawObjects(t', sectionId) == FetchRawObjects(t, sectionId) + [RawObjectView(id, sectionId, data)]
      && forall other :: other != sectionId ==> FetchRawObjects(t', other) == FetchRawObjects(t, other)
  {
    var (t', id) := InsertRawObjectRow(t, sectionId, data);
    InsertRawSameSection(t, sectionId, data);
    forall other | other != sectionId ensures FetchRawObjects(t', other) == FetchRawObjects(t, other) {
      RawObjectsOfSectionAppend(t.rawObjects, t'.rawObjects[|t.rawObjects|], other);
    }
  }

  lemma InsertRawSameSection(t: Tables, sectionId: int, data: seq<byte>)
    requires t.HasSection(sectionId) && t.hasRawObjectTable
    ensures var (t', id) := InsertRawObjectRow(t, sectionId, data);
      FetchRawObjects(t', sectionId) == FetchRawObjects(t, sectionId) + [RawObjectView(id, sectionId, data)]
  {
    var (t', id) := InsertRawObjectRow(t, sectionId, data);
    var row := t'.rawObjects[|t.rawObjects|];
    RawObjectsOfSectionAppend(t.rawObjects, row, sectionId);
    var before := RawObjectsOfSection(t.rawObjects, sectionId);
    assert RawObjectsOfSection(t'.rawObjects, sectionId) == before + [row];
    var a := FetchRawObjects(t', sectionId);
    var b := FetchRawObjects(t, sectionId) + [RawObjectView(id, sectionId, data)];
    assert |a| == |b|;
    forall i | 0 <= i < |a| ensures a[i] == b[i] {
      if i < |before| {
        assert (before + [row])[i] == before[i];
      }
    }
  }

  /** fetch_run on a run with a single section. */
  lemma FetchRunSingleSection(t: Tables, row: RunRow, section: SectionRow)
    requires RunWithId(t.runs, row.id) == Some(row)
    requires SectionsOfRun(t.sections, row.id) == [section]
    ensures FetchRun(t, row.id) == Some(RunView(row.id, row.startedAt, row.completedAt, row.domain,
      row.cliArgsJson, row.skippedServicesJson, row.overallStatus, [ViewSection(t, section)]))
  {
    assert FetchSections(t, row.id) == [ViewSection(t, section)];
  }

  /** The section rows of the round trip: the fresh run's one section, completed. */
  lemma RoundTripSectionRows(t: Tables, startedAt: Timestamp, duration: Option<int>)
    requires t.WellFormed()
    ensures
      var (t1, runId) := InsertRunRow(t, startedAt, None, None, None);
      var (t2, sectionId) := InsertSectionRow(t1, runId, "Example");
      var t3 := InsertFindingRow(t2, sectionId, "ERROR", "oops").0;
      var t5 := UpdateSectionComplete(InsertStatRow(t3, sectionId, "k", "v"), sectionId, duration);
      SectionsOfRun(t5.sections, runId) == [SectionRow(sectionId, runId, "Example", SectionComplete, duration)]
  {
    var (t1, runId) := InsertRunRow(t, startedAt, None, None, None);
    var (t2, sectionId) := InsertSectionRow(t1, runId, "Example");
    var started := SectionRow(sectionId, runId, "Example", SectionInProgress, None);
    FreshRunHasNoSections(t, runId);
    SectionsOfRunAppend(t1.sections, started, runId);
    SectionsOfRunComplete(t2.sections, runId, sectionId, duration);
  }

  /** The metadata test's writes: create a run with its metadata, start one section and
      complete it, then finalize the run. fetch_run gives the metadata, the completion time,
      the final status and the one completed section, with no findings or stats. */
  lemma FinalizedSingleSectionRoundTrip(t: Tables, startedAt: Timestamp, domain: Option<string>,
                                        cliArgsJson: Option<string>, skippedServicesJson: Option<string>,
                                        name: string, duration: Option<int>,
                                        completedAt: Timestamp, overallStatus: string)
    requires t.WellFormed()
    ensures
      var (t1, runId) := InsertRunRow(t, startedAt, domain, cliArgsJson, skippedServicesJson);
      var (t2, sectionId) := InsertSectionRow(t1, runId, name);
      var t4 := UpdateRunFinal(UpdateSectionComplete(t2, sectionId, duration), runId, completedAt, overallStatus);
      FetchRun(t4, runId) == Some(RunView(runId, startedAt, Some(completedAt), domain, cliArgsJson,
        skippedServicesJson, overallStatus, [SectionView(sectionId, name, SectionComplete, duration, [], [])]))
  {
    var r1 := InsertRunRow(t, startedAt, domain, cliArgsJson, skippedServicesJson);
    var t1, runId := r1.0, r1.1;
    var r2 := InsertSectionRow(t1, runId, name);
    var t2, sectionId := r2.0, r2.1;
    var t3 := UpdateSectionComplete(t2, sectionId, duration);
    var completed := SectionRow(sectionId, runId, name, SectionComplete, duration);
    FreshRunHasNoSections(t, runId);
    SectionsOfRunAppend(t1.sections, SectionRow(sectionId, runId, name, SectionInProgress, None), runId);
    SectionsOfRunComplete(t2.sections, runId, sectionId, duration);
    assert SectionsOfRun(t3.sections, runId) == [completed];
    RunWithIdAppended(t.runs, t1.runs[|t.runs|]);
    FetchRunSingleSection(t3, t1.runs[|t.runs|], completed);
    FreshSectionIsEmpty(t1, sectionId);
    FinalizeRunThenFetch(t3, runId, completedAt, overallStatus);
  }

  /** The unit test's round trip: create a run, start section "Example", record finding
      ("ERROR", "oops") and stat ("k", "v"), complete the section; fetch_run then gives the
      run with exactly that one completed section, its finding and its stat. */
  lemma InsertAndFetchRoundTrip(t: Tables, startedAt: Timestamp, duration: Option<int>)
    requires t.WellFormed()
    ensures
      var (t1, runId) := InsertRunRow(t, startedAt, None, None, None);
      var (t2, sectionId) := InsertSectionRow(t1, runId, "Example");
      var t3 := InsertFindingRow(t2, sectionId, "ERROR", "oops").0;
      var t5 := UpdateSectionComplete(InsertStatRow(t3, sectionId, "k", "v"), sectionId, duration);
      FetchRun(t5, runId) == Some(RunView(runId, startedAt, None, None, None, None, RunInProgress,
        [SectionView(sectionId, "Example", SectionComplete, duration, [FindingView("ERROR", "oops")], [StatView("k", "v")])]))
  {
    var r1 := InsertRunRow(t, startedAt, None, None, None);
    var t1, runId := r1.0, r1.1;
    var r2 := InsertSectionRow(t1, runId, "Example");
    var t2, sectionId := r2.0, r2.1;
    var t3 := InsertFindingRow(t2, sectionId, "ERROR", "oops").0;
    var t4 := InsertStatRow(t3, sectionId, "k", "v");
    var t5 := UpdateSectionComplete(t4, sectionId, duration);
    RoundTripSectionRows(t, startedAt, duration);
    RunWithIdAppended(t.runs, t1.runs[|t.runs|]);
    FetchRunSingleSection(t5, t1.runs[|t.runs|], SectionRow(sectionId, runId, "Example", SectionComplete, duration));
    FreshSectionIsEmpty(t1, sectionId);
    assert FetchFindings(t2, sectionId) == [] && FetchStats(t3, sectionId) == [];
    InsertFindingThenFetch(t2, sectionId, "ERROR", "oops");
    InsertStatThenFetch(t3, sectionId, "k", "v");
    FetchFindingsFrame(t5, t3, sectionId);
    assert FetchFindings(t5, sectionId) == [FindingView("ERROR", "oops")];
    assert FetchStats(t5, sectionId) == [StatView("k", "v")];
  }
}
