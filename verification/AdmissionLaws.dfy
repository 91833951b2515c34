/**
 What the admission barrier guarantees for every file it meets: what it lets through, what it keeps, and
 exactly which stores it can bring up to date.
 */
module AdmissionLaws {
  import opened Common
  import opened SchemaState
  import opened Admission

  /** Rows hold values for columns of their table only. */
  ghost predicate Shaped(db: Database) {
    forall name, i :: name in db.tables && 0 <= i < |db.tables[name].rows| ==>
      db.tables[name].rows[i].Keys <= db.tables[name].columns
  }

  // ---------------------------------------------------------------- keeping everything

  ghost predicate RowKept(row: TableRow, after: TableRow) {
    forall c :: c in row ==> c in after && after[c] == row[c]
  }

  /** Columns and rows of the table are all still there, with their values. */
  ghost predicate TableKept(t: Table, after: Table) {
    && t.columns <= after.columns && |after.rows| == |t.rows|
    && forall i :: 0 <= i < |t.rows| ==> RowKept(t.rows[i], after.rows[i])
  }

  /** The marker table: every row is still there, and only its one marker row may have been raised. */
  ghost predicate MarkerKept(t: Table, after: Table) {
    && t.columns <= after.columns && |t.rows| <= |after.rows|
    && forall i :: 0 <= i < |t.rows| ==>
         after.rows[i] == t.rows[i] || (exists now :: after.rows[i] == Stamped(t.rows[i], now))
  }

  ghost predicate Kept(db: Database, after: Database) {
    && db.tables.Keys <= after.tables.Keys && db.indexes <= after.indexes
    && (forall name :: name in db.tables && name != SchemaVersion ==> TableKept(db.tables[name], after.tables[name]))
    && (SchemaVersion in db.tables ==> MarkerKept(db.tables[SchemaVersion], after.tables[SchemaVersion]))
  }

  /** A script only ever adds. */
  lemma {:induction false} ScriptKeepsTables(db: Database, names: seq<Name>)
    ensures var after := RunAll(db, names).db;
            && db.tables.Keys <= after.tables.Keys && db.indexes <= after.indexes
            && forall name :: name in db.tables ==> after.tables[name] == db.tables[name]
  {
    if names != [] { ScriptKeepsTables(db, names[..|names| - 1]); }
  }

  function Added(n: nat): set<Column>
    requires n <= |ADDED_COLUMNS|
  {
    set k | 0 <= k < n :: ADDED_COLUMNS[k]
  }

  lemma {:induction false} ColumnsAreAdded(t: Table, n: nat)
    requires n <= |ADDED_COLUMNS|
    ensures var after := AddColumns(t, n);
            && after.columns == t.columns + Added(n) && |after.rows| == |t.rows|
            && after.keyed == t.keyed && after.accepting == t.accepting
            && forall i, c :: 0 <= i < |t.rows| && c in t.rows[i] && c in t.columns ==>
                 c in after.rows[i] && after.rows[i][c] == t.rows[i][c]
  {
    if n > 0 {
      ColumnsAreAdded(t, n - 1);
      assert Added(n) == Added(n - 1) + {ADDED_COLUMNS[n - 1]};
    }
  }

  lemma WideningKeeps(t: Table)
    requires forall i :: 0 <= i < |t.rows| ==> t.rows[i].Keys <= t.columns
    ensures TableKept(t, AddColumns(t, |ADDED_COLUMNS|))
  {
    ColumnsAreAdded(t, |ADDED_COLUMNS|);
  }

  lemma StampKeeps(t: Table, now: Instant)
    requires Stamp(t, now).Some?
    ensures MarkerKept(t, Stamp(t, now).value)
  {
    var after := Stamp(t, now).value;
    forall i | 0 <= i < |t.rows|
      ensures after.rows[i] == t.rows[i] || (exists at :: after.rows[i] == Stamped(t.rows[i], at))
    {
      assert HasMarker(t.rows) ==> after.rows[i] == Stamped(t.rows[i], now);
    }
  }

  /** The migration keeps every table, index, column and row, also when it fails half way. */
  lemma MigrationIsAdditive(db: Database, now: Instant)
    requires Shaped(db)
    ensures Kept(db, Migrated(db, now).db)
  {
    ScriptKeepsTables(db, Script());
    var scripted := RunAll(db, Script());
    if scripted.ok && Runs in scripted.db.tables && SchemaVersion in scripted.db.tables {
      if Runs in db.tables { WideningKeeps(db.tables[Runs]); }
      var widened := WithColumns(scripted.db, |ADDED_COLUMNS|);
      assert widened.tables[SchemaVersion] == scripted.db.tables[SchemaVersion];
      if Stamp(widened.tables[SchemaVersion], now).Some? { StampKeeps(widened.tables[SchemaVersion], now); }
    }
  }

  /** Whatever the barrier decides, nothing that was in the database is lost. */
  lemma AdmissionKeepsEverything(db: Database, now: Instant)
    requires Shaped(db)
    ensures Admit(Usable(db), now).0.Usable? && Kept(db, Admit(Usable(db), now).0.db)
  {
    MigrationIsAdditive(db, now);
    assert Kept(db, db);
  }

  // ---------------------------------------------------------------- the barrier

  /** A store comes out of construction only in the compatible state; one whose verdict rules it out comes
      out untouched, and so does one that was compatible already. */
  lemma BarrierHolds(file: StoreFile, now: Instant)
    ensures var (after, admission) := Admit(file, now);
            && (admission == Admitted ==> Verdict(after).state == Compatible)
            && (Unadmittable(Verdict(file).state) ==> after == file && admission == RefusedWith(Verdict(file)))
            && (Verdict(file).state == Compatible ==> after == file && admission == Admitted)
  {
  }

  /** Opening an admitted store again changes nothing. */
  lemma AdmissionIsIdempotent(file: StoreFile, first: Instant, second: Instant)
    ensures Admit(file, first).1 == Admitted ==> Admit(Admit(file, first).0, second) == Admit(file, first)
  {
    BarrierHolds(file, first);
    BarrierHolds(Admit(file, first).0, second);
  }

  // ---------------------------------------------------------------- the marker

  /** Through the barrier no version on record is ever lowered. */
  lemma MarkerIsNeverLowered(db: Database, now: Instant, i: nat)
    requires Verdict(Usable(db)).state == MigrationRequired && SchemaVersion in db.tables
    requires i < |db.tables[SchemaVersion].rows|
    ensures var after := Migrated(db, now).db;
            && SchemaVersion in after.tables && i < |after.tables[SchemaVersion].rows|
            && Reading(Value(after.tables[SchemaVersion].rows[i], Version)).Some?
            && Reading(Value(after.tables[SchemaVersion].rows[i], Version)).value >=
               Reading(Value(db.tables[SchemaVersion].rows[i], Version)).value
  {
    ScriptKeepsTables(db, Script());
    var scripted := RunAll(db, Script());
    var rows := db.tables[SchemaVersion].rows;
    assert Reading(Value(rows[i], Version)).value <= Greatest(rows) < EXPECTED_SCHEMA_VERSION;
    if scripted.ok && Runs in scripted.db.tables {
      var widened := WithColumns(scripted.db, |ADDED_COLUMNS|);
      assert widened.tables[SchemaVersion] == db.tables[SchemaVersion];
    }
  }

  /** The guarded upsert by itself lowers a version exactly when it raises the marker row over a version
      above its own, which takes a text that sorts below it, "10" below "4".  The barrier lets no such store
      reach it. */
  lemma StampLowersExactly(t: Table, now: Instant, i: nat)
    requires i < |t.rows| && Reading(Value(t.rows[i], Version)).Some?
    ensures Stamp(t, now).Some? ==>
              && Reading(Value(Stamp(t, now).value.rows[i], Version)).Some?
              && (Reading(Value(Stamp(t, now).value.rows[i], Version)).value < Reading(Value(t.rows[i], Version)).value <==>
                    IsMarker(t.rows[i]) && Outranked(Value(t.rows[i], Version))
                    && EXPECTED_SCHEMA_VERSION < Reading(Value(t.rows[i], Version)).value)
    ensures Outranked(Value(t.rows[i], Version)) && EXPECTED_SCHEMA_VERSION < Reading(Value(t.rows[i], Version)).value ==>
              Value(t.rows[i], Version).Words?
  {
    if Stamp(t, now).Some? && HasMarker(t.rows) {
      assert Stamp(t, now).value.rows[i] == Stamped(t.rows[i], now);
    } else if Stamp(t, now).Some? {
      assert Stamp(t, now).value.rows[i] == t.rows[i];
    }
  }

  // ---------------------------------------------------------------- exactly what can be migrated

  /** If there is a marker row, the new version outranks what it says. */
  predicate Raisable(rows: seq<TableRow>) {
    HasMarker(rows) ==> exists i :: 0 <= i < |rows| && IsMarker(rows[i]) && Outranked(Value(rows[i], Version))
  }

  ghost predicate Older(rows: seq<TableRow>) {
    Spelled(rows) && (rows != [] ==> Greatest(rows) < EXPECTED_SCHEMA_VERSION)
  }

  ghost predicate RunsReady(db: Database) {
    Runs in db.tables ==> V1_COLUMNS <= db.tables[Runs].columns
  }

  ghost predicate MarkerReady(db: Database) {
    SchemaVersion in db.tables ==>
      Stampable(db.tables[SchemaVersion]) && Raisable(db.tables[SchemaVersion].rows)
  }

  /** Told from the store before anything is done to it: every name the script creates is free or taken by
      its own kind, tables to be indexed have the columns, `runs` has the columns of the first version, and
      the marker row can be raised. */
  ghost predicate Migratable(db: Database) {
    AllExecutable(db, Script()) && RunsReady(db) && MarkerReady(db)
  }

  lemma AddedCompletesV1(columns: set<Column>)
    ensures REQUIRED_RUNS_COLUMNS <= columns + Added(|ADDED_COLUMNS|) <==> V1_COLUMNS <= columns
  {
    var added := Added(|ADDED_COLUMNS|);
    assert ADDED_COLUMNS[0] in added && ADDED_COLUMNS[1] in added && ADDED_COLUMNS[2] in added && ADDED_COLUMNS[3] in added;
    assert ADDED_COLUMNS[4] in added && ADDED_COLUMNS[5] in added && ADDED_COLUMNS[6] in added && ADDED_COLUMNS[7] in added;
    assert ADDED_COLUMNS[8] in added && ADDED_COLUMNS[9] in added;
    assert added * V1_COLUMNS == {};
    assert REQUIRED_RUNS_COLUMNS <= V1_COLUMNS + added;
    assert V1_COLUMNS <= REQUIRED_RUNS_COLUMNS;
  }

  /** The database once the script is through. */
  lemma Scripted(db: Database)
    requires AllExecutable(db, Script())
    ensures RunAll(db, Script()).ok
    ensures var after := RunAll(db, Script()).db;
            && after.tables.Keys == db.tables.Keys + EXPECTED_TABLES
            && Runs in after.tables && SchemaVersion in after.tables
            && after.tables[Runs] == (if Runs in db.tables then db.tables[Runs] else NewTable(Runs))
            && after.tables[SchemaVersion] == if SchemaVersion in db.tables then db.tables[SchemaVersion] else NewTable(SchemaVersion)
  {
    ScriptIsOrderly();
    ScriptCreates(db, Script());
    assert Runs in EXPECTED_TABLES && SchemaVersion in EXPECTED_TABLES;
  }

  lemma RunsAreComplete(t: Table)
    ensures REQUIRED_RUNS_COLUMNS <= AddColumns(t, |ADDED_COLUMNS|).columns <==> V1_COLUMNS <= t.columns
  {
    ColumnsAreAdded(t, |ADDED_COLUMNS|);
    AddedCompletesV1(t.columns);
  }

  /** The marker after stamping reads the expected version exactly when a marker row was raised or added. */
  lemma StampedReadsExpected(t: Table, now: Instant)
    requires Stampable(t) && Older(t.rows)
    ensures var rows := Stamp(t, now).value.rows;
            && Spelled(rows) && rows != []
            && (Greatest(rows) == EXPECTED_SCHEMA_VERSION <==> Raisable(t.rows))
  {
    var rows := Stamp(t, now).value.rows;
    forall i | 0 <= i < |rows|
      ensures Reading(Value(rows[i], Version)).Some? && Reading(Value(rows[i], Version)).value <= EXPECTED_SCHEMA_VERSION
    {
      if i < |t.rows| { assert Reading(Value(t.rows[i], Version)).value <= Greatest(t.rows); }
    }
    if HasMarker(t.rows) {
      forall i | 0 <= i < |t.rows|
        ensures Reading(Value(rows[i], Version)) == Some(EXPECTED_SCHEMA_VERSION) <==>
                IsMarker(t.rows[i]) && Outranked(Value(t.rows[i], Version))
      {
        assert Reading(Value(t.rows[i], Version)).value <= Greatest(t.rows);
      }
    } else {
      assert Reading(Value(rows[|t.rows|], Version)) == Some(EXPECTED_SCHEMA_VERSION);
    }
  }

  ghost predicate UpToDate(o: Outcome) {
    o.ok && Verdict(Usable(o.db)).state == Compatible
  }

  /** With every table in place, the last step makes the store compatible exactly when `runs` is complete and
      the marker can be raised. */
  lemma StampDecides(w: Database, now: Instant)
    requires EXPECTED_TABLES <= w.tables.Keys && Runs in w.tables && SchemaVersion in w.tables
    requires Older(w.tables[SchemaVersion].rows)
    ensures UpToDate(Finish(w, now)) <==>
              && REQUIRED_RUNS_COLUMNS <= w.tables[Runs].columns
              && Stampable(w.tables[SchemaVersion]) && Raisable(w.tables[SchemaVersion].rows)
  {
    if Stampable(w.tables[SchemaVersion]) {
      var after := Finish(w, now).db;
      StampedReadsExpected(w.tables[SchemaVersion], now);
      CompatibleIsExact(after);
      assert after.tables.Keys == w.tables.Keys;
    }
  }

  lemma WideningIsLocal(db: Database)
    requires Runs in db.tables && SchemaVersion in db.tables
    ensures var w := WithColumns(db, |ADDED_COLUMNS|);
            && w.tables.Keys == db.tables.Keys && w.tables[SchemaVersion] == db.tables[SchemaVersion]
            && (REQUIRED_RUNS_COLUMNS <= w.tables[Runs].columns <==> V1_COLUMNS <= db.tables[Runs].columns)
  {
    RunsAreComplete(db.tables[Runs]);
  }

  lemma MigrationDecides(db: Database, now: Instant)
    requires RunAll(db, Script()).ok
    requires var scripted := RunAll(db, Script()).db;
             && EXPECTED_TABLES <= scripted.tables.Keys && Runs in scripted.tables && SchemaVersion in scripted.tables
             && Older(scripted.tables[SchemaVersion].rows)
    ensures var scripted := RunAll(db, Script()).db;
            UpToDate(Migrated(db, now)) <==>
              && V1_COLUMNS <= scripted.tables[Runs].columns
              && Stampable(scripted.tables[SchemaVersion]) && Raisable(scripted.tables[SchemaVersion].rows)
  {
    var scripted := RunAll(db, Script()).db;
    WideningIsLocal(scripted);
    StampDecides(WithColumns(scripted, |ADDED_COLUMNS|), now);
  }

  lemma NewTablesAreReady()
    ensures V1_COLUMNS <= NewTable(Runs).columns
    ensures var marker := NewTable(SchemaVersion);
            Stampable(marker) && Raisable(marker.rows) && Older(marker.rows)
  {
  }

  lemma FailedScriptFails(db: Database, now: Instant)
    requires !RunAll(db, Script()).ok
    ensures !UpToDate(Migrated(db, now))
  {
  }

  lemma UpToDateIsExact(db: Database, now: Instant)
    requires SchemaVersion in db.tables ==> Older(db.tables[SchemaVersion].rows)
    ensures UpToDate(Migrated(db, now)) <==> Migratable(db)
  {
    ScriptIsOrderly();
    ScriptCreates(db, Script());
    if AllExecutable(db, Script()) {
      Scripted(db);
      NewTablesAreReady();
      MigrationDecides(db, now);
      ReadinessCarriesOver(db, RunAll(db, Script()).db);
    } else {
      FailedScriptFails(db, now);
    }
  }

  lemma ReadinessCarriesOver(db: Database, scripted: Database)
    requires Runs in scripted.tables && SchemaVersion in scripted.tables
    requires scripted.tables[Runs] == if Runs in db.tables then db.tables[Runs] else NewTable(Runs)
    requires scripted.tables[SchemaVersion] == if SchemaVersion in db.tables then db.tables[SchemaVersion] else NewTable(SchemaVersion)
    ensures V1_COLUMNS <= scripted.tables[Runs].columns <==> RunsReady(db)
    ensures Stampable(scripted.tables[SchemaVersion]) && Raisable(scripted.tables[SchemaVersion].rows) <==> MarkerReady(db)
  {
    NewTablesAreReady();
  }

  /** A store that is absent, fresh, legacy or older is admitted if and only if it is migratable. */
  lemma AdmissionIsExact(db: Database, now: Instant)
    requires Verdict(Usable(db)).state == Fresh || Verdict(Usable(db)).state == MigrationRequired
    ensures Admit(Usable(db), now).1 == Admitted <==> Migratable(db)
  {
    UpToDateIsExact(db, now);
  }

  /** A database that does not exist yet, or has no tables, is always admitted. */
  lemma FreshIsAdmitted(now: Instant)
    ensures Admit(Absent, now).1 == Admitted && Admit(Usable(EMPTY_DATABASE), now).1 == Admitted
  {
    UpToDateIsExact(EMPTY_DATABASE, now);
  }

  lemma LegacyIsMigratable(db: Database)
    requires LegacyGeneration(db).Some? && db.indexes * EXPECTED_TABLES <= {Runs}
    ensures Migratable(db)
  {
    assert Runs in db.tables && SchemaVersion !in db.tables && QualificationEpochs !in db.tables;
    assert QualificationEvents !in db.tables && Notifications !in db.tables;
    forall k | 0 <= k < |Script()| ensures Executable(db, Script()[k]) {
      TablesAreExpected(Script()[k]);
    }
  }

  /** So is a legacy one, unless one of its indexes already has the name of a table to be created. */
  lemma LegacyIsAdmitted(db: Database, now: Instant)
    requires LegacyGeneration(db).Some? && db.indexes * EXPECTED_TABLES <= {Runs}
    ensures Admit(Usable(db), now).1 == Admitted
  {
    LegacyIsMigratable(db);
    UpToDateIsExact(db, now);
  }

  // ---------------------------------------------------------------- repeating

  /** The script finds everything it would create. */
  ghost predicate Idle(once: Database, names: seq<Name>) {
    forall k :: 0 <= k < |names| ==> if IsIndex(names[k]) then names[k] in once.indexes && names[k] !in once.tables
                                     else names[k] in once.tables
  }

  lemma {:induction false} CreatedScriptIsIdle(db: Database, names: seq<Name>)
    requires Idle(db, names)
    ensures RunAll(db, names) == Outcome(db, true)
  {
    if names != [] { CreatedScriptIsIdle(db, names[..|names| - 1]); }
  }

  lemma {:induction false} WideIsIdle(t: Table, n: nat)
    requires n <= |ADDED_COLUMNS| && Added(|ADDED_COLUMNS|) <= t.columns
    ensures AddColumns(t, n) == t
  {
    if n > 0 {
      WideIsIdle(t, n - 1);
      assert ADDED_COLUMNS[n - 1] in Added(|ADDED_COLUMNS|);
    }
  }

  lemma StampIsIdle(t: Table, first: Instant, second: Instant)
    requires Stamp(t, first).Some?
    ensures Stamp(Stamp(t, first).value, second) == Stamp(t, first)
  {
    var once := Stamp(t, first).value;
    if HasMarker(t.rows) {
      var i :| 0 <= i < |t.rows| && IsMarker(t.rows[i]);
      assert IsMarker(once.rows[i]);
    } else {
      assert IsMarker(once.rows[|t.rows|]);
    }
    forall k | 0 <= k < |once.rows| ensures Stamped(once.rows[k], second) == once.rows[k] {
    }
    assert Stamp(once, second).value.rows == once.rows;
  }

  lemma MigrationIsIdleOn(once: Database, second: Instant)
    requires Idle(once, Script()) && Runs in once.tables && SchemaVersion in once.tables
    requires Added(|ADDED_COLUMNS|) <= once.tables[Runs].columns
    requires Stamp(once.tables[SchemaVersion], second) == Some(once.tables[SchemaVersion])
    ensures Migrated(once, second) == Outcome(once, true)
  {
    CreatedScriptIsIdle(once, Script());
    WideIsIdle(once.tables[Runs], |ADDED_COLUMNS|);
    assert once.tables[Runs := once.tables[Runs]] == once.tables;
    assert once.tables[SchemaVersion := once.tables[SchemaVersion]] == once.tables;
  }

  lemma ScriptLeavesIdle(db: Database, names: seq<Name>, once: Database)
    requires Orderly(names) && RunAll(db, names).ok
    requires once.tables.Keys == RunAll(db, names).db.tables.Keys && once.indexes == RunAll(db, names).db.indexes
    ensures Idle(once, names)
  {
    ScriptCreates(db, names);
    forall k | 0 <= k < |names|
      ensures if IsIndex(names[k]) then names[k] in once.indexes && names[k] !in once.tables else names[k] in once.tables
    {
      assert Executable(db, names[k]) && names[k] in names;
    }
  }

  lemma FinishIsLocal(w: Database, now: Instant)
    requires SchemaVersion in w.tables && Finish(w, now).ok
    ensures var after := Finish(w, now).db;
            && after.tables.Keys == w.tables.Keys && after.indexes == w.indexes
            && (Runs in w.tables ==> after.tables[Runs] == w.tables[Runs])
            && Some(after.tables[SchemaVersion]) == Stamp(w.tables[SchemaVersion], now)
  {
  }

  /** A migration that succeeded does nothing the second time, whenever that is. */
  lemma MigrationIsIdempotent(db: Database, first: Instant, second: Instant)
    ensures Migrated(db, first).ok ==> Migrated(Migrated(db, first).db, second) == Migrated(db, first)
  {
    if Migrated(db, first).ok {
      var scripted := RunAll(db, Script()).db;
      var once := Finish(WithColumns(scripted, |ADDED_COLUMNS|), first).db;
      WideningIsLocal(scripted);
      FinishIsLocal(WithColumns(scripted, |ADDED_COLUMNS|), first);
      ScriptIsOrderly();
      ScriptLeavesIdle(db, Script(), once);
      ColumnsAreAdded(scripted.tables[Runs], |ADDED_COLUMNS|);
      StampIsIdle(scripted.tables[SchemaVersion], first, second);
      MigrationIsIdleOn(once, second);
    }
  }

  // ---------------------------------------------------------------- a refusal that is not without effect

  lemma MigrationCreates(db: Database, now: Instant, name: Name)
    requires AllExecutable(db, Script()) && name in EXPECTED_TABLES
    ensures name in Migrated(db, now).db.tables
  {
    Scripted(db);
    var widened := WithColumns(RunAll(db, Script()).db, |ADDED_COLUMNS|);
    if Finish(widened, now).ok { FinishIsLocal(widened, now); }
  }

  /** A refused store is not always left untouched: an older marked store whose `runs` lacks a column of the
      first version is migrated first and refused afterwards, with its missing tables already created. */
  lemma RefusalCanFollowMutation(db: Database, now: Instant, missing: Name)
    requires Verdict(Usable(db)).state == MigrationRequired
    requires AllExecutable(db, Script()) && !RunsReady(db) && missing in EXPECTED_TABLES - db.tables.Keys
    ensures Admit(Usable(db), now).1 != Admitted
    ensures Admit(Usable(db), now).0.Usable? && missing in Admit(Usable(db), now).0.db.tables
  {
    AdmissionIsExact(db, now);
    MigrationCreates(db, now, missing);
  }

  // ---------------------------------------------------------------- exactly which refusals are without effect

  /** The script fails at a statement before which everything was there already. */
  ghost predicate Stuck(db: Database) {
    exists n :: 0 <= n < |Script()| && Idle(db, Script()[..n]) && !Executable(db, Script()[n])
  }

  /** Script and widening find everything, and the marker cannot be written or its row cannot be raised. */
  ghost predicate NothingToDo(db: Database) {
    && Idle(db, Script()) && Runs in db.tables && SchemaVersion in db.tables
    && Added(|ADDED_COLUMNS|) <= db.tables[Runs].columns
    && (Stampable(db.tables[SchemaVersion]) ==> !Raisable(db.tables[SchemaVersion].rows))
  }

  lemma {:induction false} FirstFailure(db: Database, names: seq<Name>) returns (n: nat)
    requires !RunAll(db, names).ok
    ensures n < |names| && RunAll(db, names[..n]).ok && RunAll(db, names) == Outcome(RunAll(db, names[..n]).db, false)
    ensures Execute(RunAll(db, names[..n]).db, names[n]) == None
  {
    var front := names[..|names| - 1];
    if RunAll(db, front).ok {
      n := |front|;
    } else {
      n := FirstFailure(db, front);
      assert front[..n] == names[..n];
    }
  }

  lemma OrderlyPrefix(names: seq<Name>, n: nat)
    requires Orderly(names) && n <= |names|
    ensures Orderly(names[..n])
  {
    forall k | 0 <= k < n ensures names[..n][..k] == names[..k] && names[..n][k] == names[k] {
    }
  }

  /** A script that succeeds and leaves the database as it was had nothing to create. */
  lemma UnchangedIsIdle(db: Database, names: seq<Name>)
    requires Orderly(names) && RunAll(db, names).ok
    requires RunAll(db, names).db.tables.Keys == db.tables.Keys && RunAll(db, names).db.indexes == db.indexes
    ensures Idle(db, names)
  {
    ScriptLeavesIdle(db, names, db);
  }

  lemma FailsWhereStuck(db: Database, names: seq<Name>, n: nat)
    requires Orderly(names) && n < |names| && Idle(db, names[..n])
    ensures Execute(db, names[n]) == None <==> !Executable(db, names[n])
  {
    if IsIndex(names[n]) {
      var table := IndexedTable(names[n]);
      assert table in names[..n];
      var k :| 0 <= k < n && names[..n][k] == table;
    }
  }

  lemma FailureAt(db: Database, names: seq<Name>, n: nat)
    requires n < |names| && RunAll(db, names[..n]) == Outcome(db, true) && Execute(db, names[n]) == None
    ensures RunAll(db, names[..n + 1]) == Outcome(db, false)
  {
    assert names[..n + 1][..n] == names[..n];
  }

  lemma StuckChangesNothing(db: Database, names: seq<Name>, n: nat)
    requires Orderly(names) && n < |names| && Idle(db, names[..n]) && !Executable(db, names[n])
    ensures RunAll(db, names) == Outcome(db, false)
  {
    CreatedScriptIsIdle(db, names[..n]);
    FailsWhereStuck(db, names, n);
    FailureAt(db, names, n);
    FailureStays(db, names, n + 1, |names|);
    assert names[..|names|] == names;
  }

  lemma FailedScriptIsExact(db: Database)
    requires !RunAll(db, Script()).ok
    ensures RunAll(db, Script()).db == db <==> Stuck(db)
  {
    ScriptIsOrderly();
    var names := Script();
    if RunAll(db, names).db == db {
      var n := FirstFailure(db, names);
      OrderlyPrefix(names, n);
      UnchangedIsIdle(db, names[..n]);
      FailsWhereStuck(db, names, n);
    }
    if Stuck(db) {
      var n :| 0 <= n < |names| && Idle(db, names[..n]) && !Executable(db, names[n]);
      StuckChangesNothing(db, names, n);
    }
  }

  /** The last step leaves the database as it is exactly when it fails or finds no row to raise. */
  lemma FinishChangesNothing(w: Database, now: Instant)
    requires SchemaVersion in w.tables && Older(w.tables[SchemaVersion].rows)
    ensures Finish(w, now).db == w <==> (Stampable(w.tables[SchemaVersion]) ==> !Raisable(w.tables[SchemaVersion].rows))
  {
    var t := w.tables[SchemaVersion];
    if Stampable(t) {
      var after := Stamp(t, now).value;
      if !HasMarker(t.rows) {
        assert |after.rows| != |t.rows|;
      } else if Raisable(t.rows) {
        var i :| 0 <= i < |t.rows| && IsMarker(t.rows[i]) && Outranked(Value(t.rows[i], Version));
        assert Reading(Value(t.rows[i], Version)).value <= Greatest(t.rows);
        assert after.rows[i] != t.rows[i];
      } else {
        assert after.rows == t.rows;
        assert w.tables[SchemaVersion := after] == w.tables;
      }
    }
  }

  lemma IdleMigration(db: Database, now: Instant)
    requires Idle(db, Script()) && Runs in db.tables && SchemaVersion in db.tables
    requires Added(|ADDED_COLUMNS|) <= db.tables[Runs].columns
    ensures Migrated(db, now) == Finish(db, now)
  {
    CreatedScriptIsIdle(db, Script());
    WideIsIdle(db.tables[Runs], |ADDED_COLUMNS|);
    assert db.tables[Runs := db.tables[Runs]] == db.tables;
  }

  /** A migration whose script succeeds changes nothing exactly when there was nothing to do. */
  lemma UnchangedMigration(db: Database, now: Instant)
    requires RunAll(db, Script()).ok && Migrated(db, now).db == db
    ensures Idle(db, Script()) && Runs in db.tables && SchemaVersion in db.tables
    ensures Added(|ADDED_COLUMNS|) <= db.tables[Runs].columns
  {
    ScriptIsOrderly();
    ScriptCreates(db, Script());
    Scripted(db);
    var scripted := RunAll(db, Script()).db;
    var widened := WithColumns(scripted, |ADDED_COLUMNS|);
    WideningIsLocal(scripted);
    ColumnsAreAdded(scripted.tables[Runs], |ADDED_COLUMNS|);
    if Finish(widened, now).ok { FinishIsLocal(widened, now); }
    assert db.tables.Keys == scripted.tables.Keys && db.indexes == scripted.indexes;
    UnchangedIsIdle(db, Script());
  }

  /** Of the stores the migration is tried on, the refused ones that come out untouched are exactly those on
      which the script is stuck before it creates anything, and those with nothing to do. */
  lemma UntouchedRefusalIsExact(db: Database, now: Instant)
    requires Verdict(Usable(db)).state == Fresh || Verdict(Usable(db)).state == MigrationRequired
    ensures Admit(Usable(db), now).1 != Admitted && Admit(Usable(db), now).0 == Usable(db) <==> Stuck(db) || NothingToDo(db)
  {
    MigrationChangesNothing(db, now);
    if Migrated(db, now).db == db { assert Verdict(Usable(Migrated(db, now).db)).state != Compatible; }
  }

  lemma MigrationChangesNothing(db: Database, now: Instant)
    requires SchemaVersion in db.tables ==> Older(db.tables[SchemaVersion].rows)
    ensures Migrated(db, now).db == db <==> Stuck(db) || NothingToDo(db)
  {
    if !RunAll(db, Script()).ok {
      FailedScriptIsExact(db);
      FailedScriptHasWork(db);
    } else {
      if Migrated(db, now).db == db { UnchangedMigration(db, now); }
      if NothingToDo(db) || Migrated(db, now).db == db {
        IdleMigration(db, now);
        FinishChangesNothing(db, now);
      }
      SucceedingScriptIsNotStuck(db);
    }
  }

  lemma FailedScriptHasWork(db: Database)
    requires !RunAll(db, Script()).ok
    ensures !NothingToDo(db)
  {
    if NothingToDo(db) { CreatedScriptIsIdle(db, Script()); }
  }

  lemma SucceedingScriptIsNotStuck(db: Database)
    requires RunAll(db, Script()).ok
    ensures !Stuck(db)
  {
    ScriptIsOrderly();
    ScriptCreates(db, Script());
  }
}
