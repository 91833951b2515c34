/**
 Opening a store: the additive migration statement by statement, and the admission barrier around it.
 Models _migrate and _admit_compatibility of core/store.py.  Every statement of the script commits on its
 own, so one that fails leaves the earlier ones in place.
 */
module Admission {
  import opened Common
  import opened SchemaState

  // ---------------------------------------------------------------- the script

  const SCRIPT_LENGTH: nat := 22

  /** The CREATE statements in order; the three index names stand for their CREATE INDEX. */
  function Statement(k: nat): Name
    requires k < SCRIPT_LENGTH
  {
    if k == 0 then Runs else if k == 1 then Observations else if k == 2 then Discoveries
    else if k == 3 then CollectorHealth else if k == 4 then Feedback else if k == 5 then SamsungReconciliationRuns
    else if k == 6 then SamsungReconciliationRecords else if k == 7 then SourceOnboarding
    else if k == 8 then PrelaunchCandidates else if k == 9 then SamsungCandidateEvents
    else if k == 10 then SoakState else if k == 11 then SoakHostMigrations else if k == 12 then SchemaVersion
    else if k == 13 then EvidenceRecords else if k == 14 then EvidenceTimeline
    else if k == 15 then QualificationEpochs else if k == 16 then CurrentEpochIndex
    else if k == 17 then QualificationEvents else if k == 18 then EpochEventsIndex
    else if k == 19 then Notifications else if k == 20 then StatusIndex
    else DeliveryPolicy
  }

  function Script(): seq<Name> {
    seq(SCRIPT_LENGTH, k requires 0 <= k < SCRIPT_LENGTH => Statement(k))
  }

  /** Where the script creates a name; past its end for the names it does not create. */
  function Position(name: Name): nat {
    match name
    case Runs => 0
    case Observations => 1
    case Discoveries => 2
    case CollectorHealth => 3
    case Feedback => 4
    case SamsungReconciliationRuns => 5
    case SamsungReconciliationRecords => 6
    case SourceOnboarding => 7
    case PrelaunchCandidates => 8
    case SamsungCandidateEvents => 9
    case SoakState => 10
    case SoakHostMigrations => 11
    case SchemaVersion => 12
    case EvidenceRecords => 13
    case EvidenceTimeline => 14
    case QualificationEpochs => 15
    case CurrentEpochIndex => 16
    case QualificationEvents => 17
    case EpochEventsIndex => 18
    case Notifications => 19
    case StatusIndex => 20
    case DeliveryPolicy => 21
    case OtherName(_) => SCRIPT_LENGTH
  }

  lemma PositionsAreExact(k: nat)
    requires k < SCRIPT_LENGTH
    ensures Position(Statement(k)) == k
  {
  }

  lemma StatementsAreExact(name: Name)
    ensures !name.OtherName? ==> Position(name) < SCRIPT_LENGTH && Statement(Position(name)) == name
  {
  }

  lemma TablesAreExpected(name: Name)
    ensures name in EXPECTED_TABLES <==> !name.OtherName? && !IsIndex(name)
  {
  }

  predicate IsIndex(name: Name) {
    name == CurrentEpochIndex || name == EpochEventsIndex || name == StatusIndex
  }

  function IndexedTable(index: Name): Name {
    match index
    case CurrentEpochIndex => QualificationEpochs
    case EpochEventsIndex => QualificationEvents
    case _ => Notifications
  }

  function IndexedColumns(index: Name): set<Column> {
    match index
    case CurrentEpochIndex => {Collector, Id}
    case EpochEventsIndex => {Collector, EpochId, EventType, Id}
    case _ => {Provider, DeliveryStatus, Id}
  }

  /** The columns of a new table, of those the program's indexes, gate and marker read. */
  function NewColumns(name: Name): set<Column> {
    match name
    case Runs => V2_COLUMNS
    case SchemaVersion => {Id, Version, UpdatedAt}
    case QualificationEpochs => {Id, Collector, EpochId, MaterialIdentity, StartedAt}
    case QualificationEvents => {Id, Collector, EventType, EpochId, MaterialIdentity, Healthy}
    case Notifications => {Id, Provider, Collector, DeliveryStatus}
    case _ => {}
  }

  function NewTable(name: Name): Table {
    Table(NewColumns(name), [], true, true)
  }

  /** One CREATE ... IF NOT EXISTS; None stands for sqlite3.Error. */
  function Execute(db: Database, name: Name): Option<Database> {
    if !IsIndex(name) then
      if name in db.tables then Some(db)
      else if name in db.indexes then None
      else Some(db.(tables := db.tables[name := NewTable(name)]))
    else if name in db.tables then None
    else if name in db.indexes then Some(db)
    else if IndexedTable(name) !in db.tables || !(IndexedColumns(name) <= db.tables[IndexedTable(name)].columns) then None
    else Some(db.(indexes := db.indexes + {name}))
  }

  /** What a failed or finished sequence of statements leaves. */
  datatype Outcome = Outcome(db: Database, ok: bool)

  function Attempted(db: Database, name: Name): Outcome {
    match Execute(db, name)
    case None => Outcome(db, false)
    case Some(next) => Outcome(next, true)
  }

  function RunAll(db: Database, names: seq<Name>): Outcome {
    if names == [] then Outcome(db, true)
    else
      var before := RunAll(db, names[..|names| - 1]);
      if before.ok then Attempted(before.db, names[|names| - 1]) else before
  }

  // ---------------------------------------------------------------- the columns of `runs`

  const ADDED_COLUMNS: seq<Column> :=
    [MetadataJson, DiscoveryCount, RunUuid, AppVersion, SchemaVersionAtRun, ConfigFingerprint, GitRevision,
     ExecutionProvenance, QualificationEpochId, MaterialIdentity]

  function DefaultOf(column: Column): Cell {
    match column
    case MetadataJson => Words(None, false)
    case DiscoveryCount => Number(0)
    case _ => Null
  }

  /** ALTER TABLE ... ADD COLUMN: every row gets the default. */
  function AddColumn(t: Table, column: Column): Table {
    t.(columns := t.columns + {column},
       rows := seq(|t.rows|, i requires 0 <= i < |t.rows| => t.rows[i][column := DefaultOf(column)]))
  }

  function AddColumns(t: Table, n: nat): Table
    requires n <= |ADDED_COLUMNS|
  {
    if n == 0 then t
    else
      var before := AddColumns(t, n - 1);
      if ADDED_COLUMNS[n - 1] in t.columns then before else AddColumn(before, ADDED_COLUMNS[n - 1])
  }

  // ---------------------------------------------------------------- the marker

  /** SQLite's `excluded.version > schema_version.version`. */
  predicate Outranked(c: Cell) {
    (c.Number? && c.value < EXPECTED_SCHEMA_VERSION) || (c.Words? && c.outranked)
  }

  predicate IsMarker(row: TableRow) {
    Value(row, Id) == Number(1)
  }

  function Stamped(row: TableRow, now: Instant): TableRow {
    if IsMarker(row) && Outranked(Value(row, Version))
    then row[Version := Number(EXPECTED_SCHEMA_VERSION)][UpdatedAt := Time(now)] else row
  }

  function MarkerRow(now: Instant): TableRow {
    map[Id := Number(1), Version := Number(EXPECTED_SCHEMA_VERSION), UpdatedAt := Time(now)]
  }

  predicate HasMarker(rows: seq<TableRow>) {
    exists i :: 0 <= i < |rows| && IsMarker(rows[i])
  }

  predicate Stampable(t: Table) {
    {Id, Version, UpdatedAt} <= t.columns && t.keyed && t.accepting
  }

  /** The guarded upsert of the one marker row. */
  function Stamp(t: Table, now: Instant): Option<Table> {
    if !Stampable(t) then None
    else if HasMarker(t.rows) then
      Some(t.(rows := seq(|t.rows|, i requires 0 <= i < |t.rows| => Stamped(t.rows[i], now))))
    else Some(t.(rows := t.rows + [MarkerRow(now)]))
  }

  function WithColumns(db: Database, n: nat): Database
    requires n <= |ADDED_COLUMNS| && Runs in db.tables
  {
    db.(tables := db.tables[Runs := AddColumns(db.tables[Runs], n)])
  }

  function Finish(widened: Database, now: Instant): Outcome
    requires SchemaVersion in widened.tables
  {
    match Stamp(widened.tables[SchemaVersion], now)
    case None => Outcome(widened, false)
    case Some(marker) => Outcome(widened.(tables := widened.tables[SchemaVersion := marker]), true)
  }

  function Migrated(db: Database, now: Instant): Outcome {
    var scripted := RunAll(db, Script());
    if !scripted.ok || Runs !in scripted.db.tables || SchemaVersion !in scripted.db.tables then scripted.(ok := false)
    else Finish(WithColumns(scripted.db, |ADDED_COLUMNS|), now)
  }

  // ---------------------------------------------------------------- the barrier

  datatype Admission = Admitted | RefusedWith(report: Report)

  /** The file after construction, and whether the store was admitted. */
  function Admit(file: StoreFile, now: Instant): (StoreFile, Admission) {
    var report := Verdict(file);
    if Unadmittable(report.state) then (file, RefusedWith(report))
    else if report.state == Compatible then (file, Admitted)
    else
      var outcome := Migrated(if file.Usable? then file.db else EMPTY_DATABASE, now);
      var after := Usable(outcome.db);
      if !outcome.ok then (after, RefusedWith(Bare(Unknown, None)))
      else if Verdict(after).state == Compatible then (after, Admitted)
      else (after, RefusedWith(Verdict(after)))
  }

  class Connection {
    var file: StoreFile

    constructor (file: StoreFile)
      ensures this.file == file
    {
      this.file := file;
    }

    /** A script; False stands for sqlite3.Error, and what had been done by then stays done. */
    method ExecuteScript(names: seq<Name>) returns (ok: bool)
      requires file.Usable?
      modifies this
      ensures file.Usable? && Outcome(file.db, ok) == RunAll(old(file.db), names)
    {
      ghost var db := file.db;
      var n := 0;
      ok := true;
      while ok && n < |names|
        invariant n <= |names| && file.Usable? && RunAll(db, names[..n]) == Outcome(file.db, ok)
      {
        assert names[..n + 1][..n] == names[..n];
        ok := Create(names[n]);
        n := n + 1;
      }
      FailureStays(db, names, n, |names|);
      assert names[..|names|] == names;
    }

    /** One statement of it. */
    method Create(name: Name) returns (ok: bool)
      requires file.Usable?
      modifies this
      ensures file.Usable? && Outcome(file.db, ok) == Attempted(old(file.db), name)
    {
      var next := Execute(file.db, name);
      ok := next.Some?;
      if ok { file := Usable(next.value); }
    }

    /** The guarded ALTER statements. */
    method WidenRuns()
      requires file.Usable? && Runs in file.db.tables
      modifies this
      ensures file == Usable(WithColumns(old(file.db), |ADDED_COLUMNS|))
    {
      var columns := file.db.tables[Runs].columns;
      ghost var db := file.db;
      for n := 0 to |ADDED_COLUMNS|
        invariant file == Usable(WithColumns(db, n))
      {
        if ADDED_COLUMNS[n] !in columns {
          var runs := AddColumn(file.db.tables[Runs], ADDED_COLUMNS[n]);
          file := Usable(file.db.(tables := file.db.tables[Runs := runs]));
        }
      }
    }

    method Migrate(now: Instant) returns (ok: bool)
      requires file.Usable?
      modifies this
      ensures file.Usable? && Outcome(file.db, ok) == Migrated(old(file.db), now)
    {
      ghost var db := file.db;
      ok := ExecuteScript(Script());
      if !ok { return; }
      ScriptIsOrderly();
      ScriptCreates(db, Script());
      WidenRuns();
      var marker := Stamp(file.db.tables[SchemaVersion], now);
      if marker.None? { return false; }
      file := Usable(file.db.(tables := file.db.tables[SchemaVersion := marker.value]));
    }

    method AdmitCompatibility(now: Instant) returns (admission: Admission)
      modifies this
      ensures (file, admission) == Admit(old(file), now)
      ensures admission == Admitted ==> Verdict(file).state == Compatible
      ensures Unadmittable(Verdict(old(file)).state) || Verdict(old(file)).state == Compatible ==> file == old(file)
    {
      if file != Absent {
        var report := InspectSchema(file);
        if Unadmittable(report.state) { return RefusedWith(report); }
        if report.state == Compatible { return Admitted; }
      } else {
        file := Usable(EMPTY_DATABASE);
      }
      var ok := Migrate(now);
      if !ok { return RefusedWith(Bare(Unknown, None)); }
      var post := InspectSchema(file);
      return if post.state == Compatible then Admitted else RefusedWith(post);
    }
  }

  // ---------------------------------------------------------------- the script in closed form

  lemma {:induction false} FailureStays(db: Database, names: seq<Name>, m: nat, n: nat)
    requires m <= n <= |names| && (m == n || !RunAll(db, names[..m]).ok)
    ensures RunAll(db, names[..n]) == RunAll(db, names[..m])
    decreases n - m
  {
    if m < n {
      FailureStays(db, names, m, n - 1);
      assert names[..n][..n - 1] == names[..n - 1];
    }
  }

  function TablesOf(names: seq<Name>): set<Name> {
    set name | name in names && !IsIndex(name)
  }

  function IndexesOf(names: seq<Name>): set<Name> {
    set name | name in names && IsIndex(name)
  }

  /** The database has gained whatever it lacked of these tables and indexes, and nothing else. */
  ghost predicate Extends(db: Database, after: Database, tables: set<Name>, indexes: set<Name>) {
    && after.tables.Keys == db.tables.Keys + tables
    && (forall name :: name in after.tables ==>
          after.tables[name] == if name in db.tables then db.tables[name] else NewTable(name))
    && after.indexes == db.indexes + indexes
  }

  /** Whether a statement succeeds can be told from the database before the script. */
  predicate Executable(db: Database, name: Name) {
    if !IsIndex(name) then name in db.tables || name !in db.indexes
    else
      && name !in db.tables
      && (name in db.indexes || IndexedTable(name) !in db.tables
          || IndexedColumns(name) <= db.tables[IndexedTable(name)].columns)
  }

  /** No name twice, and every table before its index. */
  ghost predicate Orderly(names: seq<Name>) {
    && (forall i, k :: 0 <= i < k < |names| ==> names[i] != names[k])
    && (forall k :: 0 <= k < |names| && IsIndex(names[k]) ==> IndexedTable(names[k]) in names[..k])
  }

  ghost predicate Positioned(names: seq<Name>) {
    && |names| == SCRIPT_LENGTH
    && (forall k :: 0 <= k < |names| ==> Position(names[k]) == k)
    && (forall name: Name :: !name.OtherName? ==> Position(name) < SCRIPT_LENGTH && names[Position(name)] == name)
  }

  lemma PositionedIsOrderly(names: seq<Name>)
    requires Positioned(names)
    ensures Orderly(names) && TablesOf(names) == EXPECTED_TABLES
  {
    forall k | 0 <= k < |names| && IsIndex(names[k]) ensures IndexedTable(names[k]) in names[..k] {
      var table := IndexedTable(names[k]);
      assert names[..k][Position(table)] == table;
    }
    forall name ensures name in TablesOf(names) <==> name in EXPECTED_TABLES {
      TablesAreExpected(name);
      if !name.OtherName? { assert names[Position(name)] == name; }
    }
  }

  lemma ScriptIsOrderly()
    ensures Orderly(Script()) && TablesOf(Script()) == EXPECTED_TABLES
  {
    forall k: nat | k < SCRIPT_LENGTH ensures Position(Script()[k]) == k {
      PositionsAreExact(k);
    }
    forall name: Name | !name.OtherName? ensures Position(name) < SCRIPT_LENGTH && Script()[Position(name)] == name {
      StatementsAreExact(name);
    }
    PositionedIsOrderly(Script());
  }

  lemma CreateTableExtends(db: Database, before: Database, tables: set<Name>, indexes: set<Name>, name: Name)
    requires Extends(db, before, tables, indexes)
    requires !IsIndex(name) && name !in tables && forall i :: i in indexes ==> IsIndex(i)
    ensures Execute(before, name).Some? <==> Executable(db, name)
    ensures Executable(db, name) ==> Extends(db, Execute(before, name).value, tables + {name}, indexes)
  {
  }

  lemma CreateIndexExtends(db: Database, before: Database, tables: set<Name>, indexes: set<Name>, name: Name)
    requires Extends(db, before, tables, indexes)
    requires IsIndex(name) && name !in indexes && IndexedTable(name) in tables && forall t :: t in tables ==> !IsIndex(t)
    ensures Execute(before, name).Some? <==> Executable(db, name)
    ensures Executable(db, name) ==> Extends(db, Execute(before, name).value, tables, indexes + {name})
  {
    assert IndexedColumns(name) <= NewColumns(IndexedTable(name));
  }

  lemma StatementExtends(db: Database, before: Database, names: seq<Name>, name: Name)
    requires Extends(db, before, TablesOf(names), IndexesOf(names)) && name !in names
    requires IsIndex(name) ==> IndexedTable(name) in names
    ensures Execute(before, name).Some? <==> Executable(db, name)
    ensures Executable(db, name) ==>
              Extends(db, Execute(before, name).value, TablesOf(names + [name]), IndexesOf(names + [name]))
  {
    if IsIndex(name) {
      CreateIndexExtends(db, before, TablesOf(names), IndexesOf(names), name);
      assert TablesOf(names + [name]) == TablesOf(names);
      assert IndexesOf(names + [name]) == IndexesOf(names) + {name};
    } else {
      CreateTableExtends(db, before, TablesOf(names), IndexesOf(names), name);
      assert TablesOf(names + [name]) == TablesOf(names) + {name};
      assert IndexesOf(names + [name]) == IndexesOf(names);
    }
  }

  ghost predicate AllExecutable(db: Database, names: seq<Name>) {
    forall k :: 0 <= k < |names| ==> Executable(db, names[k])
  }

  /** The script in closed form: it succeeds exactly when each of its statements would on the database as it
      was, and then adds exactly what was missing. */
  lemma {:induction false} ScriptCreates(db: Database, names: seq<Name>)
    requires Orderly(names)
    ensures RunAll(db, names).ok <==> AllExecutable(db, names)
    ensures RunAll(db, names).ok ==> Extends(db, RunAll(db, names).db, TablesOf(names), IndexesOf(names))
  {
    if names != [] {
      var front, last := names[..|names| - 1], names[|names| - 1];
      assert names == front + [last];
      assert Orderly(front) by {
        forall k | 0 <= k < |front| ensures front[..k] == names[..k] && front[k] == names[k] {}
      }
      ScriptCreates(db, front);
      var before := RunAll(db, front);
      assert AllExecutable(db, names) <==> AllExecutable(db, front) && Executable(db, last);
      if before.ok { StatementExtends(db, before.db, front, last); }
    }
  }
}
