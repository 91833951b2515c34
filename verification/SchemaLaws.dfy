/**
 The verdict on a store told from its tables, columns and marker rows, every state with the evidence it
 carries; and the values a migration writes.
 */
module SchemaLaws {
  import opened Common
  import opened SchemaState
  import opened Admission

  // ---------------------------------------------------------------- the verdict

  /** The row's version is this integer, or a text that spells it. */
  predicate Spells(row: TableRow, v: int) {
    Version in row && (row[Version] == Number(v) || (row[Version].Words? && row[Version].parsed == Some(v)))
  }

  ghost predicate SpellsOne(row: TableRow) {
    exists v :: Spells(row, v)
  }

  ghost predicate Readable(db: Database) {
    && SchemaVersion in db.tables && Id in db.tables[SchemaVersion].columns && Version in db.tables[SchemaVersion].columns
    && forall i :: 0 <= i < |db.tables[SchemaVersion].rows| ==> SpellsOne(db.tables[SchemaVersion].rows[i])
  }

  /** Version `v` is on record, and none above it. */
  ghost predicate OnRecord(db: Database, v: int) {
    && Readable(db)
    && var rows := db.tables[SchemaVersion].rows;
       && (exists i :: 0 <= i < |rows| && Spells(rows[i], v))
       && forall i, w :: 0 <= i < |rows| && Spells(rows[i], w) ==> w <= v
  }

  /** One of the program's own tables. */
  predicate IsProgramTable(name: Name) {
    !name.OtherName? && name != CurrentEpochIndex && name != EpochEventsIndex && name != StatusIndex
  }

  predicate IsRunsColumn(c: Column) {
    c in {Id, Collector, StartedAt, FinishedAt, Healthy, ObservationCount, Warning, Error, MetadataJson, DiscoveryCount,
          RunUuid, AppVersion, SchemaVersionAtRun, ConfigFingerprint, GitRevision, ExecutionProvenance,
          QualificationEpochId, MaterialIdentity}
  }

  /** What a store marked with the expected version is told: which tables and which columns of `runs` it lacks,
      and that it is compatible exactly when it lacks none. */
  ghost predicate StructureTold(db: Database, report: Report) {
    && report.observed == Some(4)
    && (forall name :: name in report.missingTables <==> IsProgramTable(name) && name !in db.tables)
    && (forall c :: c in report.missingColumns <==> IsRunsColumn(c) && Runs in db.tables && c !in db.tables[Runs].columns)
    && report.state == if report.missingTables == {} && report.missingColumns == {} then Compatible else Partial
  }

  /** What a store without a marker is told: the generation, if it is one of the two historical shapes. */
  ghost predicate UnmarkedTold(db: Database, report: Report) {
    var runs := if Runs in db.tables then db.tables[Runs].columns else {};
    var first := db.tables.Keys == {Runs}
                 && runs == {Id, Collector, StartedAt, FinishedAt, Healthy, ObservationCount, Warning, Error};
    var second := db.tables.Keys == {Runs}
                  && runs == {Id, Collector, StartedAt, FinishedAt, Healthy, ObservationCount, Warning, Error, MetadataJson,
                              DiscoveryCount};
    && (first ==> report == Report(MigrationRequired, Some(1), {}, {}))
    && (second && !first ==> report == Report(MigrationRequired, Some(2), {}, {}))
    && (!first && !second ==> report == Report(Unknown, None, {}, {}))
  }

  lemma SpellsIsReading(row: TableRow, v: int)
    ensures Spells(row, v) <==> SchemaState.Reading(Value(row, Version)) == Some(v)
  {
    if Version in row {
      var c := row[Version];
      assert Value(row, Version) == c;
      if c.Number? {
        assert SchemaState.Reading(c) == Some(c.value);
        assert c == Number(v) <==> c.value == v;
      } else if c.Words? {
        assert SchemaState.Reading(c) == c.parsed;
      } else {
        assert SchemaState.Reading(c) == None;
      }
    }
  }

  lemma ReadableRow(row: TableRow)
    ensures SchemaState.Reading(Value(row, Version)).Some? <==> SpellsOne(row)
  {
    var reading := SchemaState.Reading(Value(row, Version));
    if reading.Some? {
      SpellsIsReading(row, reading.value);
      assert Spells(row, reading.value);
    }
    if v :| Spells(row, v) { SpellsIsReading(row, v); }
  }

  lemma ReadableIsExact(db: Database)
    ensures MarkerReadable(db) <==> Readable(db)
  {
    if SchemaVersion in db.tables {
      var table := db.tables[SchemaVersion];
      assert {Id, Version} <= table.columns <==> Id in table.columns && Version in table.columns;
      forall i | 0 <= i < |table.rows|
        ensures SchemaState.Reading(Value(table.rows[i], Version)).Some? <==> SpellsOne(table.rows[i])
      {
        ReadableRow(table.rows[i]);
      }
    }
  }

  lemma GreatestIsOnRecord(db: Database, v: int)
    requires MarkerReadable(db) && db.tables[SchemaVersion].rows != []
    ensures OnRecord(db, v) <==> Greatest(db.tables[SchemaVersion].rows) == v
  {
    ReadableIsExact(db);
    var rows := db.tables[SchemaVersion].rows;
    forall i, w | 0 <= i < |rows| ensures Spells(rows[i], w) <==> SchemaState.Reading(Value(rows[i], Version)) == Some(w) {
      SpellsIsReading(rows[i], w);
    }
    var j :| 0 <= j < |rows| && SchemaState.Reading(Value(rows[j], Version)) == Some(Greatest(rows));
    assert Spells(rows[j], Greatest(rows));
  }

  lemma RequiredColumn(c: Column)
    ensures c in REQUIRED_RUNS_COLUMNS <==> IsRunsColumn(c)
  {
  }

  lemma MissingIsExact(db: Database)
    ensures forall name :: name in EXPECTED_TABLES - db.tables.Keys <==> IsProgramTable(name) && name !in db.tables
    ensures forall c :: c in MissingColumns(db) <==> IsRunsColumn(c) && Runs in db.tables && c !in db.tables[Runs].columns
  {
    forall name ensures name in EXPECTED_TABLES - db.tables.Keys <==> IsProgramTable(name) && name !in db.tables {
      TablesAreExpected(name);
    }
    forall c ensures c in MissingColumns(db) <==> IsRunsColumn(c) && Runs in db.tables && c !in db.tables[Runs].columns {
      RequiredColumn(c);
    }
  }

  /** The verdict, state by state.  A file that is no database is corrupt, one that is absent or has no tables
      is fresh; without a marker the shape decides, with one its greatest version, and a marker that cannot be
      read or says nothing makes the store unknown. */
  lemma VerdictIsExact(db: Database)
    ensures Verdict(Absent) == Report(Fresh, None, {}, {}) && Verdict(Unusable) == Report(Corrupt, None, {}, {})
    ensures db.tables == map[] ==> Verdict(Usable(db)) == Report(Fresh, None, {}, {})
    ensures db.tables != map[] && SchemaVersion !in db.tables ==> UnmarkedTold(db, Verdict(Usable(db)))
    ensures SchemaVersion in db.tables && !Readable(db) ==> Verdict(Usable(db)) == Report(Unknown, None, {}, {})
    ensures Readable(db) && db.tables[SchemaVersion].rows == [] ==> Verdict(Usable(db)) == Report(Unknown, Some(0), {}, {})
    ensures forall v: int :: OnRecord(db, v) && v > 4 ==> Verdict(Usable(db)) == Report(IncompatibleNewer, Some(v), {}, {})
    ensures forall v: int :: OnRecord(db, v) && v < 4 ==> Verdict(Usable(db)) == Report(MigrationRequired, Some(v), {}, {})
    ensures OnRecord(db, 4) ==> StructureTold(db, Verdict(Usable(db)))
    ensures Readable(db) && db.tables[SchemaVersion].rows != [] ==> exists v: int :: OnRecord(db, v)
  {
    ReadableIsExact(db);
    if Readable(db) && db.tables[SchemaVersion].rows != [] {
      forall v: int ensures OnRecord(db, v) <==> Greatest(db.tables[SchemaVersion].rows) == v {
        GreatestIsOnRecord(db, v);
      }
      assert OnRecord(db, Greatest(db.tables[SchemaVersion].rows));
      MissingIsExact(db);
    }
  }

  /** The barrier refuses a store that is newer, unknown, corrupt or partial with its verdict, admits a compatible
      one, and touches neither; only fresh and older stores are migrated. */
  lemma RefusalIsExact(file: StoreFile, now: Instant)
    ensures var report := Verdict(file);
            && (report.state == IncompatibleNewer || report.state == Unknown || report.state == Corrupt || report.state == Partial ==>
                  Admit(file, now) == (file, RefusedWith(report)))
            && (report.state == Compatible ==> Admit(file, now) == (file, Admitted))
            && (report.state == Fresh || report.state == MigrationRequired ==>
                  var outcome := Migrated(if file.Usable? then file.db else EMPTY_DATABASE, now);
                  && Admit(file, now).0 == Usable(outcome.db)
                  && (Admit(file, now).1 == Admitted <==> outcome.ok && Verdict(Usable(outcome.db)).state == Compatible))
  {
  }

  // ---------------------------------------------------------------- what a migration writes

  /** The columns of a new table, of those the program's indexes, gate and marker read. */
  predicate NewColumnsTell(name: Name, columns: set<Column>) {
    match name
    case Runs =>
      columns == {Id, Collector, StartedAt, FinishedAt, Healthy, ObservationCount, Warning, Error, MetadataJson, DiscoveryCount}
    case SchemaVersion => columns == {Id, Version, UpdatedAt}
    case QualificationEpochs => columns == {Id, Collector, EpochId, MaterialIdentity, StartedAt}
    case QualificationEvents => columns == {Id, Collector, EventType, EpochId, MaterialIdentity, Healthy}
    case Notifications => columns == {Id, Provider, Collector, DeliveryStatus}
    case _ => columns == {}
  }

  /** The value an added column gets in the rows that are there: an empty JSON object, the count zero, or NULL. */
  predicate DefaultTells(column: Column, value: Cell) {
    match column
    case MetadataJson => value == Words(None, false)
    case DiscoveryCount => value == Number(0)
    case _ => value == Null
  }

  lemma {:induction false} AddedColumnsTell(t: Table, n: nat)
    requires n <= |ADDED_COLUMNS|
    ensures |AddColumns(t, n).rows| == |t.rows|
    ensures forall i, k :: 0 <= i < |t.rows| && 0 <= k < n && ADDED_COLUMNS[k] !in t.columns ==>
              && ADDED_COLUMNS[k] in AddColumns(t, n).rows[i]
              && DefaultTells(ADDED_COLUMNS[k], AddColumns(t, n).rows[i][ADDED_COLUMNS[k]])
  {
    if n > 0 {
      AddedColumnsTell(t, n - 1);
      DefaultIsTold(ADDED_COLUMNS[n - 1]);
      var before, after := AddColumns(t, n - 1), AddColumns(t, n);
      forall i, k | 0 <= i < |t.rows| && 0 <= k < n && ADDED_COLUMNS[k] !in t.columns
        ensures ADDED_COLUMNS[k] in after.rows[i] && DefaultTells(ADDED_COLUMNS[k], after.rows[i][ADDED_COLUMNS[k]])
      {
        if k < n - 1 { assert ADDED_COLUMNS[k] in before.rows[i]; }
      }
    }
  }

  lemma DefaultIsTold(column: Column)
    ensures DefaultTells(column, DefaultOf(column))
  {
  }

  lemma MigratedRuns(db: Database, now: Instant)
    requires Migrated(db, now).ok && Runs in db.tables
    ensures Runs in Migrated(db, now).db.tables
    ensures Migrated(db, now).db.tables[Runs] == AddColumns(db.tables[Runs], |ADDED_COLUMNS|)
  {
    var scripted, names := RunAll(db, Script()), Script();
    ScriptIsOrderly();
    ScriptCreates(db, names);
    assert scripted.db.tables[Runs] == db.tables[Runs];
    FinishLeavesRuns(WithColumns(scripted.db, |ADDED_COLUMNS|), now);
  }

  lemma FinishLeavesRuns(w: Database, now: Instant)
    requires SchemaVersion in w.tables && Runs in w.tables
    ensures Runs in Finish(w, now).db.tables && Finish(w, now).db.tables[Runs] == w.tables[Runs]
  {
  }

  lemma AddedColumnTells(t: Table, i: nat, column: Column)
    requires i < |t.rows| && column in ADDED_COLUMNS && column !in t.columns
    ensures var rows := AddColumns(t, |ADDED_COLUMNS|).rows;
            |rows| == |t.rows| && column in rows[i] && DefaultTells(column, rows[i][column])
  {
    AddedColumnsTell(t, |ADDED_COLUMNS|);
    var k :| 0 <= k < |ADDED_COLUMNS| && ADDED_COLUMNS[k] == column;
  }

  /** After a migration every row of `runs` has these defaults in the columns it lacked. */
  lemma MigratedRunsHaveDefaults(db: Database, now: Instant, i: nat, column: Column)
    requires Migrated(db, now).ok && Runs in db.tables && i < |db.tables[Runs].rows|
    requires column in ADDED_COLUMNS && column !in db.tables[Runs].columns
    ensures var after := Migrated(db, now).db.tables;
            && Runs in after && |after[Runs].rows| == |db.tables[Runs].rows|
            && column in after[Runs].rows[i] && DefaultTells(column, after[Runs].rows[i][column])
  {
    MigratedRuns(db, now);
    AddedColumnTells(db.tables[Runs], i, column);
  }

  /** SQLite ranks the expected version above this one. */
  predicate RankedBelow(c: Cell) {
    match c
    case Number(v) => v < 4
    case Words(_, outranked) => outranked
    case _ => false
  }

  predicate IsTheMarker(row: TableRow) {
    Id in row && row[Id] == Number(1)
  }

  /** The upsert writes version and time into the marker row when its version ranks below the expected one,
      writes that row when there is none, touches no other, and is possible exactly when the table has the three
      columns, a key on the id and no constraint against the row. */
  lemma StampIsExact(t: Table, now: Instant)
    ensures Stamp(t, now).Some? <==> Id in t.columns && Version in t.columns && UpdatedAt in t.columns && t.keyed && t.accepting
    ensures Stamp(t, now).Some? ==>
              var after := Stamp(t, now).value;
              && after == t.(rows := after.rows)
              && ((forall i :: 0 <= i < |t.rows| ==> !IsTheMarker(t.rows[i])) ==>
                    after.rows == t.rows + [map[Id := Number(1), Version := Number(4), UpdatedAt := Time(now)]])
              && ((exists i :: 0 <= i < |t.rows| && IsTheMarker(t.rows[i])) ==>
                    && |after.rows| == |t.rows|
                    && forall i :: 0 <= i < |t.rows| ==>
                         after.rows[i] ==
                         if IsTheMarker(t.rows[i]) && Version in t.rows[i] && RankedBelow(t.rows[i][Version])
                         then t.rows[i][Version := Number(4)][UpdatedAt := Time(now)] else t.rows[i])
  {
    forall i | 0 <= i < |t.rows| ensures IsMarker(t.rows[i]) <==> IsTheMarker(t.rows[i]) {
    }
    assert HasMarker(t.rows) <==> exists i :: 0 <= i < |t.rows| && IsTheMarker(t.rows[i]);
  }

  /** The columns an index needs. */
  predicate HasIndexColumns(db: Database, index: Name) {
    match index
    case CurrentEpochIndex => QualificationEpochs in db.tables && {Collector, Id} <= db.tables[QualificationEpochs].columns
    case EpochEventsIndex =>
      QualificationEvents in db.tables && {Collector, EpochId, EventType, Id} <= db.tables[QualificationEvents].columns
    case StatusIndex => Notifications in db.tables && {Provider, DeliveryStatus, Id} <= db.tables[Notifications].columns
    case _ => false
  }

  /** One CREATE ... IF NOT EXISTS: it fails on a name that is taken by the other kind, and for an index whose
      table lacks a column; it does nothing when the name is there, and otherwise adds an empty table or the
      index and nothing else. */
  lemma CreateIsExact(db: Database, name: Name)
    requires IsProgramTable(name) || name == CurrentEpochIndex || name == EpochEventsIndex || name == StatusIndex
    ensures IsProgramTable(name) ==>
              if name in db.tables then Execute(db, name) == Some(db)
              else if name in db.indexes then Execute(db, name) == None
              else
                && Execute(db, name).Some? && Execute(db, name).value.indexes == db.indexes
                && name in Execute(db, name).value.tables && Execute(db, name).value.tables[name].rows == []
                && NewColumnsTell(name, Execute(db, name).value.tables[name].columns)
                && Execute(db, name).value.tables[name].keyed && Execute(db, name).value.tables[name].accepting
                && Execute(db, name).value.tables - {name} == db.tables
    ensures !IsProgramTable(name) ==>
              Execute(db, name) ==
              if name in db.tables then None
              else if name in db.indexes then Some(db)
              else if HasIndexColumns(db, name) then Some(Database(db.tables, db.indexes + {name})) else None
  {
    if IsProgramTable(name) && name !in db.tables && name !in db.indexes {
      assert Execute(db, name).value.tables - {name} == db.tables;
    }
  }
}
