/** The write side of the audit store (db.py): argument validation, the per-path LIFO
    connection pool, the section start-time table, and one method per writer. Each
    writer but create_run and finalize_run validates first; each then issues exactly one
    INSERT or UPDATE on the tables of Schema, and commits. A foreign-key violation rolls
    back and surfaces as a RuntimeError naming the operation; an id outside SQLite's
    64-bit range raises OverflowError before the statement runs. */
module Db {
  import opened PyRuntime
  import opened Schema

  // ---------------------------------------------------------------- validation

  /** _validate_positive_int: an int (bool included, True being 1) greater than zero. */
  function ValidatePositiveInt(value: PyValue, name: string): (r: Outcome)
    ensures r.Pass? <==> (value.PyInt? && value.i > 0) || value == PyBool(true)
    ensures r.Fail? ==> r.error == ValueError(name + " must be a positive integer")
  {
    if !value.IsInt() || value.IntValue() <= 0 then Fail(ValueError(name + " must be a positive integer"))
    else Pass
  }

  /** _validate_non_empty: a str with at least one non-whitespace character. */
  function ValidateNonEmpty(value: PyValue, name: string): (r: Outcome)
    ensures r.Pass? <==> value.PyStr? && exists i :: 0 <= i < |value.s| && !IsSpace(value.s[i])
    ensures r.Fail? ==> r.error == ValueError(name + " must be a non-empty string")
  {
    if !value.PyStr? || Strip(value.s) == [] then Fail(ValueError(name + " must be a non-empty string"))
    else Pass
  }

  /** The type check insert_raw makes on its payload. */
  function ValidateBytesLike(value: PyValue): (r: Outcome)
    ensures r.Pass? <==> value.PyBytes? || value.PyByteArray?
    ensures r.Fail? ==> r.error == ValueError("raw_data must be bytes-like")
  {
    if !value.IsBytesLike() then Fail(ValueError("raw_data must be bytes-like")) else Pass
  }

  /** sqlite3 binds a Python int as a signed 64-bit SQLite INTEGER. */
  predicate FitsSqliteInteger(n: int) {
    -0x8000_0000_0000_0000 <= n < 0x8000_0000_0000_0000
  }

  /** What sqlite3 raises, before the statement runs, for an int it cannot bind. It is not
      an sqlite3.Error, so the writers' `except sqlite3.DatabaseError` clauses let it through. */
  const IntTooLarge: Exc := OverflowError("Python int too large to convert to SQLite INTEGER")

  /** The message of the RuntimeError a writer raises when its statement fails. */
  function DatabaseErrorDuring(operation: string): Exc {
    RuntimeError("Database error during " + operation)
  }

  // ---------------------------------------------------------------- connection pool

  /** A database file location. */
  type Path = string

  /** A connection is known by its identity; `connect` hands out a new one each time. */
  type Conn = nat

  /** LifoQueue(maxsize=5) */
  const PoolCapacity: nat := 5

  /** _CONN_POOLS and _CONN_PATHS, with DB_PATH fixed when the module is loaded. A pool
      is a stack whose top is its last element. */
  class ConnPool {
    const dbPath: Path
    var pools: map<Path, seq<Conn>>
    var connPaths: map<Conn, Path>
    var closed: set<Conn>
    var nextConn: Conn   // the identity the next sqlite3.connect returns

    ghost predicate Valid()
      reads this
    {
      && (forall p :: p in pools ==> |pools[p]| <= PoolCapacity)
      && (forall p, i :: p in pools && 0 <= i < |pools[p]| ==> pools[p][i] < nextConn)
      && (forall c :: c in connPaths ==> c < nextConn)
      && (forall c :: c in closed ==> c < nextConn)
      && (forall p, i :: p in pools && 0 <= i < |pools[p]| && pools[p][i] in connPaths ==> connPaths[pools[p][i]] == p)
    }

    /** The idle connections of path p (an absent pool counts as empty). */
    function Idle(p: Path): seq<Conn>
      reads this
    {
      if p in pools then pools[p] else []
    }

    /** _CONN_PATHS.get(c, DB_PATH) */
    function PathOf(c: Conn): Path
      reads this
    {
      if c in connPaths then connPaths[c] else dbPath
    }

    /** The connection _get_conn hands out next: the top of DB_PATH's pool, else a new one. */
    function NextLent(): Conn
      reads this
    {
      var idle := Idle(dbPath);
      if idle != [] then idle[|idle| - 1] else nextConn
    }

    /** The effect of one _get_conn that returned c. */
    twostate predicate Lent(c: Conn)
      reads this
    {
      var idle := old(Idle(dbPath));
      && c == old(NextLent())
      && nextConn == (if idle != [] then old(nextConn) else old(nextConn) + 1)
      && pools == old(pools)[dbPath := if idle != [] then idle[..|idle| - 1] else []]
      && connPaths == (if idle != [] then old(connPaths) else old(connPaths)[c := dbPath])
    }

    /** The pools and _CONN_PATHS after one _get_conn, whatever happens to the connection. */
    twostate predicate Taken()
      reads this
    {
      var idle := old(Idle(dbPath));
      && nextConn == (if idle != [] then old(nextConn) else old(nextConn) + 1)
      && pools == old(pools)[dbPath := if idle != [] then idle[..|idle| - 1] else []]
      && connPaths == (if idle != [] then old(connPaths) else old(connPaths)[old(nextConn) := dbPath])
    }

    /** A writer's use of the pool: one _get_conn, then conn.close() instead of a release. */
    twostate predicate LentAndClosed()
      reads this
    {
      Taken() && closed == old(closed) + {old(NextLent())}
    }

    /** One _get_conn whose connection is then neither closed nor released. */
    twostate predicate LentAndLeaked()
      reads this
    {
      Taken() && closed == old(closed)
    }

    /** _managed_conn's use of the pool: one _get_conn, then _release_conn of that connection. */
    twostate predicate LentAndReturned()
      reads this
    {
      && closed == old(closed)
      && if old(Idle(dbPath)) != [] then
           pools == old(pools) && connPaths == old(connPaths) && nextConn == old(nextConn)
         else
           && pools == old(pools)[dbPath := [old(nextConn)]]
           && connPaths == old(connPaths)[old(nextConn) := dbPath]
           && nextConn == old(nextConn) + 1
    }

    constructor(path: Path)
      ensures Valid()
      ensures dbPath == path && pools == map[] && connPaths == map[] && closed == {} && nextConn == 0
    {
      dbPath := path;
      pools := map[];
      connPaths := map[];
      closed := {};
      nextConn := 0;
    }

    /** _get_conn: pop the most recently returned idle connection of DB_PATH, or connect
        anew and record the new connection under DB_PATH. */
    method GetConn() returns (c: Conn)
      requires Valid()
      modifies this
      ensures Valid() && Lent(c)
      ensures closed == old(closed)
      ensures old(Idle(dbPath)) == [] ==> c !in old(connPaths) && c !in old(closed)
    {
      var idle := Idle(dbPath);
      if idle != [] {
        c := idle[|idle| - 1];
        pools := pools[dbPath := idle[..|idle| - 1]];
      } else {
        pools := pools[dbPath := []];
        c := nextConn;
        nextConn := nextConn + 1;
        connPaths := connPaths[c := dbPath];
      }
    }

    /** _release_conn: push c onto the pool of its recorded path; when that pool already
        holds PoolCapacity connections, close c and forget its path instead. */
    method ReleaseConn(c: Conn)
      requires Valid() && c < nextConn
      modifies this
      ensures Valid()
      ensures var path := old(PathOf(c)); var idle := old(Idle(path));
        if |idle| < PoolCapacity then
          pools == old(pools)[path := idle + [c]] && connPaths == old(connPaths) && closed == old(closed)
        else
          pools == old(pools)[path := idle] && connPaths == old(connPaths) - {c} && closed == old(closed) + {c}
      ensures nextConn == old(nextConn)
    {
      var path := PathOf(c);
      var idle := Idle(path);
      if |idle| < PoolCapacity {
        pools := pools[path := idle + [c]];
      } else {
        pools := pools[path := idle];
        closed := closed + {c};
        connPaths := connPaths - {c};
      }
    }

    /** conn.close(): the connection stays recorded in _CONN_PATHS. */
    method Close(c: Conn)
      requires Valid() && c < nextConn
      modifies this
      ensures Valid()
      ensures closed == old(closed) + {c}
      ensures pools == old(pools) && connPaths == old(connPaths) && nextConn == old(nextConn)
    {
      closed := closed + {c};
    }
  }

  /** No pool ever holds more than PoolCapacity idle connections. */
  lemma PoolsBounded(pool: ConnPool, p: Path)
    requires pool.Valid()
    ensures |pool.Idle(p)| <= PoolCapacity
  {
  }

  // ---------------------------------------------------------------- the store

  /** Start instants are kept only for ids the section table has handed out, and none lies
      after the last clock reading. */
  ghost predicate StartsRecorded(startTimes: map<int, int>, sectionSeq: nat, clock: nat) {
    forall s :: s in startTimes ==> 1 <= s <= sectionSeq && startTimes[s] <= clock
  }

  /** What the body of a `with _managed_conn()` block did: the tables its statements
      would leave, and how it ended. */
  datatype BlockEnd = Completes | RaisesSqliteError(message: string) | RaisesOther

  /** The module-level state of db.py over one database file: its tables, the section
      start-time table and the connection pool. The monotonic clock is passed in as
      `now`; `clock` is its last reading. */
  class AuditDb {
    var db: Tables
    var startTimes: map<int, int>
    ghost var clock: nat
    const pool: ConnPool

    ghost predicate Valid()
      reads this, pool
    {
      && db.WellFormed() && db.hasRawObjectTable
      && pool.Valid()
      && StartsRecorded(startTimes, db.sectionSeq, clock)
    }

    /** The module freshly loaded and init_db run once: the schema exists, and init_db's
        connection has been taken from the pool and closed rather than released. */
    constructor(path: Path)
      ensures Valid() && fresh(pool)
      ensures db == Initialized && startTimes == map[] && clock == 0
      ensures pool.dbPath == path && pool.pools == map[path := []]
      ensures pool.connPaths == map[0 := path] && pool.closed == {0} && pool.nextConn == 1
    {
      db := Initialized;
      startTimes := map[];
      clock := 0;
      pool := new ConnPool(path);
      new;
      var c := pool.GetConn();
      pool.Close(c);
    }

    /** create_run: no validation; appends one IN_PROGRESS, uncompleted run whose id is
        above every earlier run id, and returns that id. */
    method CreateRun(startedAt: Timestamp, domain: Option<string>, cliArgsJson: Option<string>,
                     skippedServicesJson: Option<string>) returns (runId: int)
      requires Valid()
      modifies this, pool
      ensures Valid() && pool.LentAndClosed()
      ensures (db, runId) == InsertRunRow(old(db), startedAt, domain, cliArgsJson, skippedServicesJson)
      ensures forall i :: 0 <= i < |old(db).runs| ==> old(db).runs[i].id < runId
      ensures db.runs == old(db).runs + [RunRow(runId, startedAt, None, domain, cliArgsJson, skippedServicesJson, RunInProgress)]
      ensures startTimes == old(startTimes) && clock == old(clock)
    {
      var c := pool.GetConn();
      var (t, id) := InsertRunRow(db, startedAt, domain, cliArgsJson, skippedServicesJson);
      db, runId := t, id;
      assert StartsRecorded(startTimes, db.sectionSeq, clock);
      pool.Close(c);
    }

    /** The checks start_section makes before touching the store. */
    static function StartSectionCheck(runId: PyValue, name: PyValue): Outcome {
      ValidatePositiveInt(runId, "run_id").Then(ValidateNonEmpty(name, "name"))
    }

    /** start_section: after validation, inserts one in_progress section of the run and
        records `now` as its start; a run id sqlite3 cannot bind raises OverflowError, and
        an unknown run rolls back and raises RuntimeError. */
    method StartSection(runId: PyValue, name: PyValue, now: nat) returns (r: Result<int>)
      requires Valid() && now >= clock
      modifies this, pool
      ensures Valid()
      ensures StartSectionCheck(runId, name).Fail? ==>
        r == Err(StartSectionCheck(runId, name).error) && unchanged(this) && unchanged(pool)
      ensures StartSectionCheck(runId, name).Pass? ==> SectionStarted(runId.IntValue(), name.s, now, r)
    {
      var check := StartSectionCheck(runId, name);
      if check.Fail? {
        return Err(check.error);
      }
      r := InsertSection(runId.IntValue(), name.s, now);
    }

    /** What start_section does once its arguments have passed validation. */
    twostate predicate SectionStarted(runId: int, name: string, now: nat, new r: Result<int>)
      reads this, pool
    {
      && pool.LentAndClosed()
      && if !FitsSqliteInteger(runId) then
           && r == Err(IntTooLarge)
           && db == old(db) && startTimes == old(startTimes) && clock == old(clock)
         else if old(db).HasRun(runId) then
           && r.Ok?
           && (db, r.value) == InsertSectionRow(old(db), runId, name)
           && r.value !in old(startTimes)
           && startTimes == old(startTimes)[r.value := now]
           && clock == now
         else
           && r == Err(DatabaseErrorDuring("start_section"))
           && db == old(db) && startTimes == old(startTimes) && clock == old(clock)
    }

    /** The statement start_section issues, with the start instant it records. */
    method InsertSection(runId: int, name: string, now: nat) returns (r: Result<int>)
      requires Valid() && now >= clock
      modifies this, pool
      ensures Valid() && SectionStarted(runId, name, now, r)
    {
      var c := pool.GetConn();
      if !FitsSqliteInteger(runId) {
        pool.Close(c);
        return Err(IntTooLarge);
      }
      if !db.HasRun(runId) {
        pool.Close(c);
        return Err(DatabaseErrorDuring("start_section"));
      }
      var (t, id) := InsertSectionRow(db, runId, name);
      assert id == db.sectionSeq + 1 == t.sectionSeq;
      db := t;
      startTimes := startTimes[id := now];
      clock := now;
      assert StartsRecorded(startTimes, db.sectionSeq, clock);
      pool.Close(c);
      r := Ok(id);
    }

    /** complete_section: after validation, pops the section's start instant and marks the
        section complete, with duration now - start, or none when no start was recorded.
        An id without a section changes no row and raises nothing; an id sqlite3 cannot
        bind raises OverflowError after the start instant has been popped. */
    method CompleteSection(sectionId: PyValue, now: nat) returns (r: Outcome)
      requires Valid() && now >= clock
      modifies this, pool
      ensures Valid()
      ensures ValidatePositiveInt(sectionId, "section_id").Fail? ==>
        r == ValidatePositiveInt(sectionId, "section_id") && unchanged(this) && unchanged(pool)
      ensures ValidatePositiveInt(sectionId, "section_id").Pass? ==>
        SectionCompleted(sectionId.IntValue(), now, r)
    {
      r := ValidatePositiveInt(sectionId, "section_id");
      if r.Fail? {
        return;
      }
      r := MarkComplete(sectionId.IntValue(), now);
    }

    /** What complete_section does once its argument has passed validation. */
    twostate predicate SectionCompleted(sid: int, now: nat, r: Outcome)
      reads this, pool
    {
      && (sid in old(startTimes) ==> 0 <= now - old(startTimes)[sid])
      && r == (if FitsSqliteInteger(sid) then Pass else Fail(IntTooLarge))
      && db == (if FitsSqliteInteger(sid) then
                  UpdateSectionComplete(old(db), sid, if sid in old(startTimes) then Some(now - old(startTimes)[sid]) else None)
                else old(db))
      && startTimes == old(startTimes) - {sid}
      && clock == now && pool.LentAndClosed()
    }

    /** The statement complete_section issues, with the duration it measured. */
    method MarkComplete(sid: int, now: nat) returns (r: Outcome)
      requires Valid() && now >= clock
      modifies this, pool
      ensures Valid() && SectionCompleted(sid, now, r)
    {
      var duration: Option<int> := None;
      if sid in startTimes {
        duration := Some(now - startTimes[sid]);
      }
      startTimes := startTimes - {sid};
      clock := now;
      var c := pool.GetConn();
      if FitsSqliteInteger(sid) {
        db := UpdateSectionComplete(db, sid, duration);
        r := Pass;
      } else {
        r := Fail(IntTooLarge);
      }
      assert StartsRecorded(startTimes, db.sectionSeq, clock);
      pool.Close(c);
    }

    /** The checks insert_finding makes before touching the store. */
    static function InsertFindingCheck(sectionId: PyValue, severity: PyValue, message: PyValue): Outcome {
      ValidatePositiveInt(sectionId, "section_id")
        .Then(ValidateNonEmpty(severity, "severity"))
        .Then(ValidateNonEmpty(message, "message"))
    }

    /** insert_finding: after validation, appends one finding to an existing section;
        a missing section rolls back and raises. */
    method InsertFinding(sectionId: PyValue, severity: PyValue, message: PyValue) returns (r: Outcome)
      requires Valid()
      modifies this, pool
      ensures Valid() && startTimes == old(startTimes) && clock == old(clock)
      ensures InsertFindingCheck(sectionId, severity, message).Fail? ==>
        r == InsertFindingCheck(sectionId, severity, message) && unchanged(this) && unchanged(pool)
      ensures InsertFindingCheck(sectionId, severity, message).Pass? ==>
        && pool.LentAndClosed()
        && if !FitsSqliteInteger(sectionId.IntValue()) then
             r == Fail(IntTooLarge) && db == old(db)
           else if old(db).HasSection(sectionId.IntValue()) then
             && r == Pass
             && db == InsertFindingRow(old(db), sectionId.IntValue(), severity.s, message.s).0
           else
             r == Fail(DatabaseErrorDuring("insert_finding")) && db == old(db)
    {
      r := InsertFindingCheck(sectionId, severity, message);
      if r.Fail? {
        return;
      }
      var c := pool.GetConn();
      var sid := sectionId.IntValue();
      if !FitsSqliteInteger(sid) {
        r := Fail(IntTooLarge);
      } else if !db.HasSection(sid) {
        r := Fail(DatabaseErrorDuring("insert_finding"));
      } else {
        db := InsertFindingRow(db, sid, severity.s, message.s).0;
      }
      assert StartsRecorded(startTimes, db.sectionSeq, clock);
      pool.Close(c);
    }

    /** The checks insert_stat makes before touching the store; the value is not checked. */
    static function InsertStatCheck(sectionId: PyValue, key: PyValue): Outcome {
      ValidatePositiveInt(sectionId, "section_id").Then(ValidateNonEmpty(key, "key"))
    }

    /** insert_stat: after validation, appends one stat to an existing section;
        a missing section rolls back and raises. */
    method InsertStat(sectionId: PyValue, key: PyValue, value: string) returns (r: Outcome)
      requires Valid()
      modifies this, pool
      ensures Valid() && startTimes == old(startTimes) && clock == old(clock)
      ensures InsertStatCheck(sectionId, key).Fail? ==>
        r == InsertStatCheck(sectionId, key) && unchanged(this) && unchanged(pool)
      ensures InsertStatCheck(sectionId, key).Pass? ==>
        && pool.LentAndClosed()
        && if !FitsSqliteInteger(sectionId.IntValue()) then
             r == Fail(IntTooLarge) && db == old(db)
           else if old(db).HasSection(sectionId.IntValue()) then
             r == Pass && db == InsertStatRow(old(db), sectionId.IntValue(), key.s, value)
           else
             r == Fail(DatabaseErrorDuring("insert_stat")) && db == old(db)
    {
      r := InsertStatCheck(sectionId, key);
      if r.Fail? {
        return;
      }
      var c := pool.GetConn();
      var sid := sectionId.IntValue();
      if !FitsSqliteInteger(sid) {
        r := Fail(IntTooLarge);
      } else if !db.HasSection(sid) {
        r := Fail(DatabaseErrorDuring("insert_stat"));
      } else {
        db := InsertStatRow(db, sid, key.s, value);
      }
      assert StartsRecorded(startTimes, db.sectionSeq, clock);
      pool.Close(c);
    }

    /** The checks insert_raw makes before touching the store, in order. */
    static function InsertRawCheck(sectionId: PyValue, rawData: PyValue): Outcome {
      ValidatePositiveInt(sectionId, "section_id").Then(ValidateBytesLike(rawData))
    }

    /** insert_raw: after validation, appends one raw object with the payload's bytes to
        an existing section; a missing section rolls back and raises. */
    method InsertRaw(sectionId: PyValue, rawData: PyValue) returns (r: Outcome)
      requires Valid()
      modifies this, pool
      ensures Valid() && startTimes == old(startTimes) && clock == old(clock)
      ensures InsertRawCheck(sectionId, rawData).Fail? ==>
        r == InsertRawCheck(sectionId, rawData) && unchanged(this) && unchanged(pool)
      ensures InsertRawCheck(sectionId, rawData).Pass? ==>
        && pool.LentAndClosed()
        && if !FitsSqliteInteger(sectionId.IntValue()) then
             r == Fail(IntTooLarge) && db == old(db)
           else if old(db).HasSection(sectionId.IntValue()) then
             r == Pass && db == InsertRawObjectRow(old(db), sectionId.IntValue(), rawData.bytes).0
           else
             r == Fail(DatabaseErrorDuring("insert_raw")) && db == old(db)
    {
      r := InsertRawCheck(sectionId, rawData);
      if r.Fail? {
        return;
      }
      var c := pool.GetConn();
      var sid := sectionId.IntValue();
      if !FitsSqliteInteger(sid) {
        r := Fail(IntTooLarge);
      } else if !db.HasSection(sid) {
        r := Fail(DatabaseErrorDuring("insert_raw"));
      } else {
        db := InsertRawObjectRow(db, sid, rawData.bytes).0;
      }
      assert StartsRecorded(startTimes, db.sectionSeq, clock);
      pool.Close(c);
    }

    /** finalize_run: no validation; sets completed_at and overall_status on the run with
        that id, if there is one, and changes nothing else. A run id sqlite3 cannot bind
        raises OverflowError, and with no try/finally the connection is never closed. */
    method FinalizeRun(runId: int, overallStatus: string, completedAt: Timestamp) returns (r: Outcome)
      requires Valid()
      modifies this, pool
      ensures Valid() && startTimes == old(startTimes) && clock == old(clock)
      ensures FitsSqliteInteger(runId) ==>
        r == Pass && pool.LentAndClosed() && db == UpdateRunFinal(old(db), runId, completedAt, overallStatus)
      ensures !FitsSqliteInteger(runId) ==> r == Fail(IntTooLarge) && pool.LentAndLeaked() && db == old(db)
    {
      var c := pool.GetConn();
      if !FitsSqliteInteger(runId) {
        return Fail(IntTooLarge);
      }
      db := UpdateRunFinal(db, runId, completedAt, overallStatus);
      assert StartsRecorded(startTimes, db.sectionSeq, clock);
      pool.Close(c);
      r := Pass;
    }

    /** _managed_conn around a block: commit when the block completes, roll back and
        re-raise on an sqlite3 error, and in every case hand the connection back with
        _release_conn. `writes` is the state the block's statements leave behind. */
    method ManagedConn(writes: Tables, end: BlockEnd) returns (r: Outcome)
      requires Valid()
      requires end.Completes? ==> writes.WellFormed() && writes.hasRawObjectTable && writes.sectionSeq >= db.sectionSeq
      modifies this, pool
      ensures Valid() && pool.LentAndReturned()
      ensures startTimes == old(startTimes) && clock == old(clock)
      ensures end.Completes? ==> r == Pass && db == writes
      ensures end.RaisesSqliteError? ==> r == Fail(DatabaseError(end.message)) && db == old(db)
      ensures end.RaisesOther? ==> r == Fail(OtherError) && db == old(db)
    {
      ghost var idle, paths, pools0, next0 := pool.Idle(pool.dbPath), pool.connPaths, pool.pools, pool.nextConn;
      var c := pool.GetConn();
      assert pool.PathOf(c) == pool.dbPath;
      if idle != [] {
        assert pool.Idle(pool.dbPath) + [c] == idle;
        assert pools0[pool.dbPath := idle] == pools0;
      } else {
        assert pool.Idle(pool.dbPath) + [c] == [next0];
      }
      match end {
        case Completes =>
          db := writes;
          r := Pass;
        case RaisesSqliteError(msg) =>
          r := Fail(DatabaseError(msg));
        case RaisesOther =>
          r := Fail(OtherError);
      }
      pool.ReleaseConn(c);
    }
  }
}
