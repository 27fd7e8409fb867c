# GAudit audit store, report queries and input validators, in Dafny

This project models the persistence core of GAudit, a Google Workspace audit tool:

- **Writers (`db.py`).** Each audit run is a row of the `run` table. The run is split into sections, and each section collects findings, key/value stats and raw payloads. `create_run` and `finalize_run` check none of their arguments; the other writers validate theirs first. Each writer then issues exactly one INSERT or UPDATE on an SQLite file. Foreign keys are switched on. The writers share two pieces of module state: a table of section start instants, and a per-path LIFO pool of connections with a capacity of five.
- **Readers (`report_db.py`).** These rebuild the run → section → finding/stat tree that reports consume.
- **Validators (`data_validator.py`).** These are small string and integer checks plus a filename sanitiser.

The model has six modules:

- **`PyRuntime`** (`py_runtime.dfy`) covers the Python facts the code depends on:
  - dynamically typed arguments, with `bool` as a subclass of `int`;
  - the exceptions raised;
  - `str.isspace` and `str.strip` over Python's whitespace set.
- **`Schema`** (`schema.dfy`) holds the database as a value, `Tables`:
  - five tables plus the AUTOINCREMENT counters;
  - one function per SQL statement the writers issue;
  - the invariant `WellFormed`. It says that ids ascend in storage order, that every id lies within its counter, and that every REFERENCES clause holds.
- **`Db`** (`db.dfy`) has two classes:
  - `ConnPool` holds `_CONN_POOLS` and `_CONN_PATHS`;
  - `AuditDb` holds the tables, `_section_start_times` and the pool, with one method per writer.

  Each method states its whole new state: the statement function applied to the old tables, the new start-time map and the pool's change. It also keeps `Valid()`.
- **`ReportDb`** (`report_db.dfy`) has one function per fetch. It also holds write-then-read lemmas that connect every writer's statement function to what the readers return.
- **`DataValidator`** (`data_validator.dfy`) contains:
  - the email and domain regular expressions, written both as a regex-shaped predicate and as a flat description, with both directions proved;
  - `is_positive_int`, both as written and corrected (see Findings);
  - `ensure_positive_int` and `ensure_non_empty_str`;
  - `sanitize_filename`.
- **`Scenarios`** (`scenarios.dfy`) replays the repository's store and report tests through the `AuditDb` object and the fetch functions, call by call. `test_init_db_creates_tables` has no replay: the initial store has all five tables by construction.

A few abstractions run through the whole model:

- **Time.** The monotonic clock is a `nat` argument `now` that never decreases, and durations are whole numbers. Wall-clock timestamps are opaque strings.
- **JSON.** The JSON text of `cli_args` and `skipped_services` is an opaque string.
- **One database file.** The model covers a single database file whose schema `init_db` has already created. `DB_PATH` only keys the pool.
- **Storage failures.** Two failures are modelled:
  - The foreign-key violation of a missing parent row. As in the code, it rolls the statement back and raises `RuntimeError("Database error during <op>")`.
  - An id outside SQLite's signed 64-bit INTEGER range. sqlite3 cannot bind it and raises `OverflowError` before the statement runs. `OverflowError` is not an `sqlite3.DatabaseError`, so it escapes the writers' `except` clauses unchanged.

The writers raise `ValueError` for bad arguments and `RuntimeError` for a failed statement, and let `OverflowError` through. Every writer calls `conn.close()` (`finalize_run` only when its statement runs), so a connection taken from the pool is never returned. Only `_managed_conn` releases one, and nothing calls it.

## Model

| member | source | states |
|---|---|---|
| PyRuntime.Strip | db.py:49 | `s.strip()` is empty exactly when every character of `s` is Python whitespace; otherwise it starts and ends with a non-space character |
| Db.ValidatePositiveInt | db.py:39-43 | passes iff the argument is an `int` above 0 or `True` (bool counts as int 1); otherwise ValueError "<name> must be a positive integer" |
| Db.ValidateNonEmpty | db.py:46-50 | passes iff the argument is a `str` with at least one non-whitespace character; otherwise ValueError "<name> must be a non-empty string" |
| Db.ValidateBytesLike | db.py:298-299 | passes iff the payload is `bytes` or `bytearray`; otherwise ValueError "raw_data must be bytes-like" |
| Db.ConnPool.constructor | db.py:27-29 | both module dictionaries start empty and the pool invariant holds |
| Db.ConnPool.GetConn | db.py:53-62 | pops the top idle connection of DB_PATH's pool if there is one. Otherwise it opens a connection never seen before and records it under DB_PATH. Nothing is closed. |
| Db.ConnPool.ReleaseConn | db.py:65-73 | pushes the connection onto the pool of its recorded path, or DB_PATH when unrecorded. When that pool already holds 5, it closes the connection and forgets its path. No pool exceeds 5. |
| Db.ConnPool.Close | db.py:199 | `conn.close()` closes the connection and leaves every pool and `_CONN_PATHS` untouched |
| Db.PoolsBounded | db.py:55 | every pool holds at most 5 idle connections |
| Db.AuditDb.constructor | db.py:90-160 | the module freshly loaded and `init_db` run: five empty tables and no start instants. `init_db`'s own connection is new, recorded under the path, and closed. DB_PATH's pool is left empty. |
| Db.AuditDb.CreateRun | db.py:163-200 | no validation. Appends exactly one run with the given metadata, status "IN_PROGRESS" and no completion time. Its id exceeds every earlier run id and is returned. Nothing else changes; the connection is closed. |
| Db.AuditDb.StartSection | db.py:204-224 | a non-positive or non-int run id, or an empty or whitespace name, gives ValueError and changes nothing. Otherwise it behaves as `SectionStarted`. |
| Db.AuditDb.InsertSection | db.py:208-224 | a run id outside the signed 64-bit range gives OverflowError, with tables and start times unchanged. Otherwise an existing run gains exactly one in_progress section with no duration. The fresh id is returned, was not in the start-time table, and now maps to `now`. An unknown run gives RuntimeError and leaves the tables and start times unchanged. In every case the connection is closed. |
| Db.AuditDb.CompleteSection | db.py:227-249 | a bad id gives ValueError and changes nothing. Otherwise it behaves as `SectionCompleted`: it raises nothing, even when no section has that id, unless the id is outside the 64-bit range. |
| Db.AuditDb.MarkComplete | db.py:231-249 | removes the id from the start-time table in every case. For an id in the signed 64-bit range it marks the matching section complete and returns normally. The duration is `now - start`, which is non-negative, or none when no start was recorded. Every other row is unchanged. For an id outside that range it gives OverflowError and the tables are unchanged, although the start instant is gone. |
| Db.AuditDb.InsertFinding | db.py:252-271 | bad id, severity or message gives ValueError, with store and pool untouched. An id outside the 64-bit range gives OverflowError with the tables unchanged. Otherwise an existing section gains exactly one finding. A missing section gives RuntimeError and leaves the tables unchanged. |
| Db.AuditDb.InsertStat | db.py:274-292 | bad id or key gives ValueError, with nothing touched; the value is not checked. An id outside the 64-bit range gives OverflowError with the tables unchanged. Otherwise an existing section gains exactly one stat. A missing section gives RuntimeError with the tables unchanged. |
| Db.AuditDb.InsertRaw | db.py:295-314 | a bad id, or a payload that is not bytes-like, gives ValueError before the store is touched, even when the section does not exist. An id outside the 64-bit range gives OverflowError with the tables unchanged. Otherwise exactly one raw object is appended, or RuntimeError is raised for a missing section. |
| Db.AuditDb.FinalizeRun | db.py:317-327 | no validation. For a run id in the signed 64-bit range, it sets completed_at and overall_status on the run with that id, changes nothing else, and closes the connection. Otherwise it gives OverflowError, changes no table, and the taken connection is neither closed nor returned. |
| Db.AuditDb.ManagedConn | db.py:76-87 | on success the block's writes are committed. On an sqlite error they are rolled back and the error re-raised; any other exception propagates. In every case the connection goes back through `_release_conn`. |
| Schema.InitializedWellFormed | db.py:97-152 | the freshly created schema satisfies the store invariant and has the raw_object table |
| Schema.InsertRunRow | db.py:183-197 | the run table gains one row whose id is above every existing id and equal to the returned lastrowid; other tables are unchanged; the invariant is kept |
| Schema.InsertSectionRow | db.py:211-215 | for an existing run, the section table gains one in_progress row with a fresh id; the invariant (including REFERENCES run) is kept |
| Schema.UpdateSectionComplete | db.py:239-242 | exactly the rows with that id become complete with the given duration; row ids, run ids and names and every other table are unchanged; the invariant is kept |
| Schema.InsertFindingRow | db.py:261-264 | for an existing section, the finding table gains one row with a fresh id at its end; the invariant is kept |
| Schema.InsertStatRow | db.py:282-285 | for an existing section, the stat table gains one row at its end; the invariant is kept |
| Schema.InsertRawObjectRow | db.py:304-307 | for an existing section, the raw_object table gains one row with a fresh id at its end; the invariant is kept |
| Schema.UpdateRunFinal | db.py:322-325 | exactly the runs with that id get the completion time and status; every other row and table is unchanged; the invariant is kept |
| Schema.FinalizeLastWriteWins | db.py:322-325 | finalizing twice equals finalizing once with the second values |
| Schema.CompleteLastWriteWins | db.py:239-242 | completing a section twice equals completing it once with the second duration |
| Schema.CompleteUnknownSection | db.py:239-242 | completing an id that names no section leaves the tables unchanged |
| Schema.FinalizeUnknownRun | db.py:322-325 | finalizing an id that names no run leaves the tables unchanged |
| ReportDb.SectionsOfRun | report_db.py:115-118 | exactly the sections with that run_id, in stored order; ascending ids are preserved |
| ReportDb.FindingsOfSection | report_db.py:143-146 | exactly the findings with that section_id, in stored order; ascending ids are preserved |
| ReportDb.StatsOfSection | report_db.py:165-166 | exactly the stats with that section_id, in insertion order |
| ReportDb.StatsOfSectionConcat | report_db.py:165-166 | filtering stats distributes over concatenation |
| ReportDb.RawObjectsOfSection | report_db.py:194-197 | exactly the raw objects with that section_id, in insertion order |
| ReportDb.LatestRun | report_db.py:68-72 | none iff there are no runs; otherwise a stored run whose id is the largest |
| ReportDb.RunWithId | report_db.py:89-93 | none iff no run has that id; otherwise the stored run with that id |
| ReportDb.FetchFindings | report_db.py:133-152 | one (severity, message) entry per finding of the section, in the filter's order |
| ReportDb.FetchStats | report_db.py:155-172 | one (key, value) entry per stat of the section, in insertion order |
| ReportDb.ViewSections | report_db.py:121-127 | one entry per section row, in the same order, each with its findings and stats |
| ReportDb.FetchSections | report_db.py:105-130 | one entry per section of the run, in the filter's order; ids strictly ascend |
| ReportDb.FetchLastRun | report_db.py:50-81 | empty iff the store has no runs; otherwise a stored run with the largest id and its sections, which is the last row stored |
| ReportDb.FetchRun | report_db.py:84-102 | empty iff no run has that id; otherwise that run's seven fields and its sections |
| ReportDb.FetchRawObjects | report_db.py:175-201 | empty when the raw_object table is absent; otherwise one (id, section_id, data) entry per raw object of the section, in insertion order |
| ReportDb.FetchFindingsFrame | report_db.py:143-148 | fetch_findings depends only on the finding table |
| ReportDb.ViewSectionsFrame | report_db.py:121-127 | the section views depend only on the finding and stat tables |
| ReportDb.ViewSectionsAppend | report_db.py:121-127 | viewing one more section row appends one view |
| ReportDb.FetchSectionsFrame | report_db.py:105-130 | fetch_sections depends only on the section, finding and stat tables |
| ReportDb.SectionsOfRunAppend | report_db.py:115-118 | a new section row appears at the end of its own run's list and nowhere else |
| ReportDb.FindingsOfSectionAppend | report_db.py:143-146 | a new finding appears at the end of its own section's list and nowhere else |
| ReportDb.SectionsOfRunNone | report_db.py:115-118 | a run no section points at has no sections |
| ReportDb.FindingsOfSectionNone | report_db.py:143-146 | a section no finding points at has no findings |
| ReportDb.StatsOfSectionNone | report_db.py:165-166 | a section no stat points at has no stats |
| ReportDb.FreshRunHasNoSections | report_db.py:115-118 | under the REFERENCES invariant, an id above the run counter has no sections |
| ReportDb.FreshSectionIsEmpty | report_db.py:143-169 | under the REFERENCES invariant, an id above the section counter has no findings and no stats |
| ReportDb.RunWithIdAppended | report_db.py:89-93 | a run appended with an id not yet used is the one found by that id |
| ReportDb.CreateRunThenFetch | tests/test_db_report.py:65-75 | after create_run, fetch_last_run and fetch_run of the new id both give the new run, IN_PROGRESS, uncompleted, with no sections |
| ReportDb.StartSectionThenFetch | report_db.py:105-130 | after start_section, the run's section list gains one in_progress entry with no duration, findings or stats at its end |
| ReportDb.StartSectionOtherRuns | report_db.py:105-130 | start_section leaves every other run's section list unchanged |
| ReportDb.InsertFindingThenFetch | report_db.py:133-152 | after insert_finding, the section's list gains that (severity, message) at its end; other sections are unchanged |
| ReportDb.InsertStatThenFetch | report_db.py:155-172 | after insert_stat, the section's list gains that (key, value) at its end; other sections are unchanged |
| ReportDb.SectionsOfRunComplete | report_db.py:115-118 | completing a section completes its entry in its run's list and changes no other entry |
| ReportDb.CompleteSectionThenFetch | report_db.py:105-130 | after complete_section, the entry with that id reads complete with the new duration; every other entry reads as before |
| ReportDb.RunWithIdFinal | report_db.py:89-93 | after finalize_run, the run found by that id is the old one with completion time and status replaced |
| ReportDb.FinalizeRunThenFetch | tests/test_db_report.py:77-94 | after finalize_run, fetch_run gives the same run with completed_at set and the new overall_status |
| ReportDb.RawObjectsOfSectionAppend | report_db.py:194-197 | a new raw object appears at the end of its own section's list and nowhere else |
| ReportDb.InsertRawThenFetch | report_db.py:175-201 | after insert_raw, the section's raw objects gain (id, section, bytes) at the end; other sections are unchanged |
| ReportDb.InsertRawSameSection | report_db.py:187-198 | after insert_raw, the section's raw-object list is the old list plus the new entry |
| ReportDb.FetchRunSingleSection | report_db.py:84-102 | the fetch_run result for a run with exactly one section |
| ReportDb.RoundTripSectionRows | tests/test_db_report.py:40-58 | after the test's writes, the run has exactly the one completed "Example" section |
| ReportDb.InsertAndFetchRoundTrip | tests/test_db_report.py:40-58 | create_run, start_section "Example", insert_finding ERROR/oops, insert_stat k/v and complete_section, on any well-formed store. fetch_run then gives the run with exactly that one complete section, its duration, one finding and one stat. |
| ReportDb.FinalizedSingleSectionRoundTrip | tests/test_db_report.py:80-94 | on any well-formed store: create a run with metadata, start and complete one section, then finalize the run. fetch_run then gives exactly that metadata, the completion time, the final status and the one completed section, with no findings or stats. |
| DataValidator.EmailBodyIsShape | data_validator.py:17 | the regex `[^@\s]+@[^@\s]+\.[^@\s]+` matches exactly the strings with one "@" that is not first, no whitespace, and a "." strictly inside the domain part |
| DataValidator.EmailBodyToShape | data_validator.py:17 | a regex match has that shape |
| DataValidator.EmailShapeToBody | data_validator.py:17 | a string of that shape matches the regex |
| DataValidator.ValidateEmail | data_validator.py:27-29 | true iff the string, or the string without one final "\n", has the email shape |
| DataValidator.FirstDot | data_validator.py:18 | the position of the first "." |
| DataValidator.DomainShapeCons | data_validator.py:18 | a label and a dot before a domain form a domain |
| DataValidator.DomainBodyToShape | data_validator.py:18 | a match of `(?:[a-zA-Z0-9-]+\.)+[a-zA-Z]{2,}` is a run of labels with single dots, a final dot, then 2+ letters |
| DataValidator.DomainShapeTail | data_validator.py:18 | the part after the first label of a domain is again a domain or the final letters |
| DataValidator.DomainShapeToBody | data_validator.py:18 | every string of that shape matches the regex |
| DataValidator.DomainBodyIsShape | data_validator.py:18 | the regex and the flat description agree on every string |
| DataValidator.ValidateDomain | data_validator.py:32-34 | true iff the string, or the string without one final "\n", has the domain shape |
| DataValidator.DecimalDigit | data_validator.py:44 | the digit value `int()` gives a Unicode decimal character; ASCII digits give their usual value |
| DataValidator.DecimalValuePositive | data_validator.py:44 | a decimal string's value is above 0 iff some digit is not zero |
| DataValidator.IsPositiveInt | data_validator.py:42-44 | corrected: true iff the string is non-empty, all decimal digits, and not all zeros |
| DataValidator.IsPositiveIntAsWritten | data_validator.py:42-44 | raises ValueError exactly for digit strings that are not decimal (superscripts, circled digits). The message carries the quoted string cut to 200 characters, as `%.200R` does. Otherwise the result equals the corrected predicate. |
| DataValidator.IsPositiveIntRaisesOnSuperscript | data_validator.py:44 | "²" passes `isdigit` but makes `int()` raise |
| DataValidator.IsPositiveIntExamples | tests/test_data_validator.py:26-30 | "5" gives true; "0", "-3" and "abc" give false |
| DataValidator.EnsurePositiveInt | data_validator.py:47-52 | returns the argument unchanged iff it is an int above 0, or True; otherwise ValueError "<name> must be a positive integer" |
| DataValidator.EnsureNonEmptyStr | data_validator.py:55-60 | returns the argument unchanged iff it is a str with a non-whitespace character; otherwise ValueError "<name> must be a non-empty string" |
| DataValidator.MapUnsafe | data_validator.py:66-68 | with a safe replacement the result is all safe. With a one-character replacement, safe characters stay in place and others become the replacement. A separator appears only if the replacement holds one. |
| DataValidator.ReplaceChar | data_validator.py:69 | `str.replace` of one character: identity when the character is absent, and length-preserving with a one-character replacement |
| DataValidator.SanitizeFilename | data_validator.py:63-69 | with a replacement without separators, the two `replace` calls change nothing after the whitelist map |
| DataValidator.SanitizeKeepsSafeCharacters | data_validator.py:66-69 | with a one-character replacement the output has the input's length; each safe character stays and each other character becomes the replacement |
| DataValidator.SanitizeRemovesSeparators | data_validator.py:63-69 | no "/" and no "\\" in the output unless the replacement holds one |
| DataValidator.SanitizeIdempotent | data_validator.py:66-69 | with a safe replacement the output is all safe, and sanitising it again changes nothing |
| DataValidator.MapUnsafeOfSafe | data_validator.py:66-68 | an all-safe name is left unchanged |
| DataValidator.SanitizeDefault | tests/test_data_validator.py:32-35 | with the default "_": all safe, no separators, idempotent |
| DataValidator.ValidateEmailAccepts | tests/test_data_validator.py:14 | "user@example.com" is accepted |
| DataValidator.ValidateEmailRejects | tests/test_data_validator.py:15 | "invalid" is rejected |
| DataValidator.ValidateDomainAccepts | tests/test_data_validator.py:18 | "example.com" is accepted |
| DataValidator.ValidateDomainRejects | tests/test_data_validator.py:19 | "no spaces" is rejected |
| Scenarios.InsertAndFetch | tests/test_db_report.py:40-58 | the round trip through the AuditDb object: fetch_run gives run 1 with the complete "Example" section, its duration, finding "oops" and stat "v" |
| Scenarios.OpenExampleSection | tests/test_db_report.py:43-44 | create_run and start_section on a fresh store give ids 1 and 1 and record the start instant |
| Scenarios.RecordFinding | tests/test_db_report.py:45 | insert_finding on the new section appends the finding |
| Scenarios.RecordStat | tests/test_db_report.py:46 | insert_stat on the new section appends the stat |
| Scenarios.CompleteExample | tests/test_db_report.py:47 | complete_section on a started section completes it with duration finish - start and leaves no start instant behind |
| Scenarios.StartNamed | tests/test_db_report.py:67 | start_section(run, name) with no other section under way adds exactly that section and records its start instant |
| Scenarios.RunWithOneSection | tests/test_db_report.py:66-68 | create_run, start_section and complete_section append one run whose id is the next AUTOINCREMENT value, and leave no start instant |
| Scenarios.LastRunOfEmptyStore | tests/test_db_report.py:60-63 | fetch_last_run on a freshly initialised store reports nothing |
| Scenarios.LatestRunReported | tests/test_db_report.py:65-75 | two runs are created, each with one section started and completed; the run ids are 1 and 2, and fetch_last_run reports the second run |
| Scenarios.MetadataAndFinalize | tests/test_db_report.py:77-94 | a run is created with domain, CLI arguments and skipped services; section "Example" is started and completed; the run is finalized "PASS". It reads back with that metadata, the status, the completion time and the completed section. |
| Scenarios.StartSectionRejectsZero | tests/test_db_validation.py:18-20 | start_section(0, "name") raises ValueError |
| Scenarios.CompleteSectionRejectsNegative | tests/test_db_validation.py:22-24 | complete_section(-1) raises ValueError |
| Scenarios.StartSectionOverflows | db.py:206-213 | start_section(2**63, "name") passes validation, then raises OverflowError and adds no section |
| Scenarios.InsertRawRejectsText | tests/test_db_validation.py:26-28 | insert_raw(1, "not bytes") raises ValueError "raw_data must be bytes-like" |

## Left out

- **`init_db` and SQL.** `init_db`'s DDL and all SQL text are not modelled. The tables are a value and each statement is a function. The store starts from the state `init_db` leaves behind. The `PRAGMA foreign_keys = ON` of every connection is modelled as the REFERENCES invariant.
- **sqlite3 failures.** The only storage failures modelled are a missing parent row and an id too large to bind. Disk, locking and I/O errors, and the logging on error paths, are left out. The `ON DELETE CASCADE` clauses are left out too, because nothing deletes rows.
- **Configuration.** The `GAUDIT_DB_PATH` environment lookup and reassigning `DB_PATH` at run time are left out. The pool's path is fixed when the store is built, and report_db's `db_path` arguments name the same store.
- **Clocks.** `datetime.utcnow()` and `time.monotonic()` are left out. Timestamps are caller-supplied strings, and the monotonic clock is a `nat` argument that never decreases. Durations are whole numbers, not floats.
- **JSON.** `json.dumps` of `cli_args` and `skipped_services` is left out; callers pass the encoded strings.
- **Row ids.** The ids a writer binds are checked against the signed 64-bit range; for the readers, see the ReportDb lines below. The AUTOINCREMENT counters are unbounded integers, so exhausting them (SQLITE_FULL past id 2**63 - 1) is not modelled.
- **`ManagedConn` and uncommitted writes.** When a non-sqlite exception leaves the block, the model neither commits nor rolls back. It keeps the old tables and does not model writes left uncommitted on a pooled connection.
- **Stale `_CONN_PATHS` entries.** `Db.ConnPool.Close` models `conn.close()`, which leaves the connection's entry in `_CONN_PATHS`. The growth of that dictionary is modelled but not bounded.
- **`report_db` connection handling.** Its own `sqlite3.Row` connections and the `conn=` argument of the fetch functions only choose which connection reads the same store, so they are left out.
- **Unicode digit tables.**
  - `DataValidator.DecimalDigit` lists 22 of the Unicode decimal-digit blocks that CPython's `int()` accepts: ASCII, Arabic-Indic, the Indic scripts, Thai, Lao, Tibetan, Myanmar, Khmer, Mongolian and fullwidth. The other decimal-digit blocks are left out.
  - `IsDigitOnly` lists the common superscript and circled digits, not every character with a digit property.
- **`validate_url` and the rest of the repository.** `validate_url` is not part of this model because its character class `[a-zA-Z0-9-_]` is ambiguous. The audit orchestrator (only stubs), the rate limiter, settings, credential handling, the GUI and the charts are not part of this model.
- **Sanitiser test input.** `DataValidator.SanitizeDefault` proves the sanitiser test's assertions for every input; the literal input `"bad/name\\file.txt"` is not singled out.
- Db.AuditDb.InsertStat: the value is modelled as a `str`, its annotated type, although nothing checks it. `None` stored as NULL and read back as `None`, numbers turned into text by the column's TEXT affinity, bytes stored as a blob, and unsupported types failing at binding are not modelled.
- Db.AuditDb.FinalizeRun: `run_id` is an `int` and `overall_status` a `str`, their annotated types, although nothing checks them. A `None` status stored as NULL and other argument types are not modelled.
- DataValidator.IsPositiveIntAsWritten: the limit of 4300 digits on `int()` of a string, added in CPython 3.11 and later backported, is not modelled. Under it, a decimal string longer than 4300 digits also raises ValueError.
- ReportDb.FetchRun: an id outside the signed 64-bit range makes sqlite3 raise OverflowError when it binds the id. This is not modelled; the function returns None instead. Ids read back from the tables always fit.
- ReportDb.FetchSections: an id outside the signed 64-bit range makes sqlite3 raise OverflowError when it binds the id. This is not modelled; the function returns [] instead.
- ReportDb.FetchFindings: an id outside the signed 64-bit range makes sqlite3 raise OverflowError when it binds the id. This is not modelled; the function returns [] instead.
- ReportDb.FetchStats: an id outside the signed 64-bit range makes sqlite3 raise OverflowError when it binds the id. This is not modelled; the function returns [] instead.
- ReportDb.FetchRawObjects: an id outside the signed 64-bit range makes sqlite3 raise OverflowError when it binds the id. This is not modelled; the function returns [] instead.
- Scenarios.StartSectionRejectsZero: states only the exception class ValueError, as the test does, not the message text.
- Scenarios.CompleteSectionRejectsNegative: states only the exception class ValueError, as the test does, not the message text.

## Findings

| source | as written | input that shows it | evidently intended | confidence | as-written member | corrected member |
|---|---|---|---|---|---|---|
| data_validator.py:42-44 | `value.isdigit() and int(value) > 0`. `isdigit` also accepts superscript and circled digits, which `int()` rejects with ValueError. | `"²"` (U+00B2) | a boolean for every string, so `False` for `"²"` | not executed | DataValidator.IsPositiveIntAsWritten (with DataValidator.IsPositiveIntRaisesOnSuperscript) | DataValidator.IsPositiveInt |
