/**
 The verdict on a persistent store.  Models core/schema_state.py: what the gate reads of a database, and
 what it makes of it.  Every table, index and column name the program knows is a constructor.
 */
module SchemaState {
  import opened Common

  const EXPECTED_SCHEMA_VERSION := 4

  datatype Name =
    | Runs | Observations | Discoveries | CollectorHealth | Feedback | SamsungReconciliationRuns
    | SamsungReconciliationRecords | SourceOnboarding | PrelaunchCandidates | SamsungCandidateEvents | SoakState
    | SoakHostMigrations | SchemaVersion | EvidenceRecords | EvidenceTimeline | QualificationEpochs
    | QualificationEvents | Notifications | DeliveryPolicy
    | CurrentEpochIndex | EpochEventsIndex | StatusIndex
    | OtherName(name: string)

  datatype Column =
    | Id | Collector | StartedAt | FinishedAt | Healthy | ObservationCount | Warning | Error | MetadataJson
    | DiscoveryCount | RunUuid | AppVersion | SchemaVersionAtRun | ConfigFingerprint | GitRevision
    | ExecutionProvenance | QualificationEpochId | MaterialIdentity
    | Version | UpdatedAt | EpochId | EventType | Provider | DeliveryStatus
    | OtherColumn(column: string)

  /** A stored value.  `parsed` is what Python's int() makes of a text, and `outranked` whether SQLite ranks
      the expected version above that text. */
  datatype Cell = Null | Number(value: int) | Words(parsed: Option<int>, outranked: bool) | Time(at: Instant) | Blob(tag: string)

  type TableRow = map<Column, Cell>

  /** `keyed`: the id is a primary key or unique.  `accepting`: the table's other constraints accept the row
      the migration writes to it. */
  datatype Table = Table(columns: set<Column>, rows: seq<TableRow>, keyed: bool, accepting: bool)

  datatype Database = Database(tables: map<Name, Table>, indexes: set<Name>)

  const EMPTY_DATABASE := Database(map[], {})

  datatype StoreFile = Absent | Unusable | Usable(db: Database)

  const EXPECTED_TABLES: set<Name> :=
    {Runs, Observations, Discoveries, CollectorHealth, Feedback, SamsungReconciliationRuns, SamsungReconciliationRecords,
     SourceOnboarding, PrelaunchCandidates, SamsungCandidateEvents, SoakState, SoakHostMigrations, SchemaVersion,
     EvidenceRecords, EvidenceTimeline, QualificationEpochs, QualificationEvents, Notifications, DeliveryPolicy}

  const V1_COLUMNS: set<Column> :=
    {Id, Collector, StartedAt, FinishedAt, Healthy, ObservationCount, Warning, Error}

  const V2_COLUMNS: set<Column> := V1_COLUMNS + {MetadataJson, DiscoveryCount}

  const REQUIRED_RUNS_COLUMNS: set<Column> :=
    V2_COLUMNS + {RunUuid, AppVersion, SchemaVersionAtRun, ConfigFingerprint, GitRevision, ExecutionProvenance,
                  QualificationEpochId, MaterialIdentity}

  datatype State = Fresh | MigrationRequired | Compatible | IncompatibleNewer | Unknown | Corrupt | Partial

  /** The verdict and the version it read, if it read one. */
  datatype Report = Report(state: State, observed: Option<int>, missingTables: set<Name>, missingColumns: set<Column>)

  function Bare(state: State, observed: Option<int>): Report {
    Report(state, observed, {}, {})
  }

  predicate Unadmittable(s: State) {
    s == IncompatibleNewer || s == Unknown || s == Corrupt || s == Partial
  }

  // ---------------------------------------------------------------- the marker

  function Value(row: TableRow, column: Column): Cell {
    if column in row then row[column] else Null
  }

  /** The version a cell spells, if it spells one. */
  function Reading(c: Cell): Option<int> {
    match c
    case Number(v) => Some(v)
    case Words(parsed, _) => parsed
    case _ => None
  }

  predicate Spelled(rows: seq<TableRow>) {
    forall i :: 0 <= i < |rows| ==> Reading(Value(rows[i], Version)).Some?
  }

  /** The greatest version on record. */
  function Greatest(rows: seq<TableRow>): (v: int)
    requires rows != [] && Spelled(rows)
    ensures forall i :: 0 <= i < |rows| ==> Reading(Value(rows[i], Version)).value <= v
    ensures exists i :: 0 <= i < |rows| && Reading(Value(rows[i], Version)) == Some(v)
  {
    var last := Reading(Value(rows[|rows| - 1], Version)).value;
    if |rows| == 1 then last
    else
      var before := Greatest(rows[..|rows| - 1]);
      if before > last then before else last
  }

  // ---------------------------------------------------------------- the verdict

  /** The historical generation of a database without a marker, told by its one table's exact columns. */
  function LegacyGeneration(db: Database): Option<int> {
    if db.tables.Keys != {Runs} then None
    else if db.tables[Runs].columns == V1_COLUMNS then Some(1)
    else if db.tables[Runs].columns == V2_COLUMNS then Some(2)
    else None
  }

  function MissingColumns(db: Database): set<Column> {
    if Runs in db.tables then REQUIRED_RUNS_COLUMNS - db.tables[Runs].columns else {}
  }

  predicate MarkerReadable(db: Database) {
    && SchemaVersion in db.tables
    && {Id, Version} <= db.tables[SchemaVersion].columns
    && Spelled(db.tables[SchemaVersion].rows)
  }

  function Verdict(file: StoreFile): Report {
    match file
    case Absent => Bare(Fresh, None)
    case Unusable => Bare(Corrupt, None)
    case Usable(db) =>
      if db.tables == map[] then Bare(Fresh, None)
      else if SchemaVersion !in db.tables then
        if LegacyGeneration(db).Some? then Bare(MigrationRequired, LegacyGeneration(db)) else Bare(Unknown, None)
      else if !MarkerReadable(db) then Bare(Unknown, None)
      else
        var rows := db.tables[SchemaVersion].rows;
        if rows == [] then Bare(Unknown, Some(0))
        else
          var observed := Greatest(rows);
          if observed > EXPECTED_SCHEMA_VERSION then Bare(IncompatibleNewer, Some(observed))
          else if observed < EXPECTED_SCHEMA_VERSION then Bare(MigrationRequired, Some(observed))
          else
            var tables, columns := EXPECTED_TABLES - db.tables.Keys, MissingColumns(db);
            Report(if tables == {} && columns == {} then Compatible else Partial, Some(observed), tables, columns)
  }

  lemma NothingMissing<T>(required: set<T>, present: set<T>)
    ensures required - present == {} <==> required <= present
  {
    if required - present == {} {
      forall x | x in required ensures x in present {
        assert x !in required - present;
      }
    }
  }

  /** The structural contract, in one piece: a store is compatible exactly when its marker's greatest version
      is the expected one and every expected table and every required column of `runs` is there. */
  lemma CompatibleIsExact(db: Database)
    ensures Verdict(Usable(db)).state == Compatible <==>
              && MarkerReadable(db) && db.tables[SchemaVersion].rows != []
              && Greatest(db.tables[SchemaVersion].rows) == EXPECTED_SCHEMA_VERSION
              && EXPECTED_TABLES <= db.tables.Keys
              && REQUIRED_RUNS_COLUMNS <= db.tables[Runs].columns
  {
    assert SchemaVersion in db.tables ==> db.tables != map[];
    NothingMissing(EXPECTED_TABLES, db.tables.Keys);
    assert Runs in EXPECTED_TABLES;
    if Runs in db.tables { NothingMissing(REQUIRED_RUNS_COLUMNS, db.tables[Runs].columns); }
  }

  /** The versions of every marker row, or None as soon as one spells no integer. */
  method ReadVersions(raw: seq<TableRow>) returns (versions: Option<seq<int>>)
    ensures versions.Some? <==> Spelled(raw)
    ensures versions.Some? ==> Versions(raw, versions.value)
  {
    var read: seq<int> := [];
    for i := 0 to |raw|
      invariant |read| == i
      invariant forall k :: 0 <= k < i ==> Reading(Value(raw[k], Version)) == Some(read[k])
    {
      var reading := Reading(Value(raw[i], Version));
      if reading.None? { return None; }
      read := read + [reading.value];
    }
    versions := Some(read);
  }

  ghost predicate Versions(raw: seq<TableRow>, versions: seq<int>) {
    |versions| == |raw| && forall k :: 0 <= k < |raw| ==> Reading(Value(raw[k], Version)) == Some(versions[k])
  }

  function Maximum(versions: seq<int>): int
    requires versions != []
  {
    var last := versions[|versions| - 1];
    if |versions| == 1 then last
    else
      var before := Maximum(versions[..|versions| - 1]);
      if before > last then before else last
  }

  lemma {:induction false} GreatestIsMaximum(raw: seq<TableRow>, versions: seq<int>)
    requires versions != [] && Versions(raw, versions) && Spelled(raw)
    ensures Greatest(raw) == Maximum(versions)
  {
    if |raw| > 1 { GreatestIsMaximum(raw[..|raw| - 1], versions[..|raw| - 1]); }
  }

  method InspectSchema(file: StoreFile) returns (report: Report)
    ensures report == Verdict(file)
  {
    if file == Absent { return Bare(Fresh, None); }
    if file == Unusable { return Bare(Corrupt, None); }
    var db := file.db;
    if db.tables == map[] { return Bare(Fresh, None); }
    if SchemaVersion !in db.tables {
      var legacy := LegacyGeneration(db);
      return if legacy.Some? then Bare(MigrationRequired, legacy) else Bare(Unknown, None);
    }
    if !({Id, Version} <= db.tables[SchemaVersion].columns) { return Bare(Unknown, None); }
    var raw := db.tables[SchemaVersion].rows;
    var versions := ReadVersions(raw);
    if versions.None? { return Bare(Unknown, None); }
    if versions.value == [] { return Bare(Unknown, Some(0)); }
    var observed := Maximum(versions.value);
    GreatestIsMaximum(raw, versions.value);
    if observed > EXPECTED_SCHEMA_VERSION { return Bare(IncompatibleNewer, Some(observed)); }
    if observed < EXPECTED_SCHEMA_VERSION { return Bare(MigrationRequired, Some(observed)); }
    var missingTables, missingColumns := EXPECTED_TABLES - db.tables.Keys, MissingColumns(db);
    return Report(if missingTables != {} || missingColumns != {} then Partial else Compatible, Some(observed),
                  missingTables, missingColumns);
  }
}
