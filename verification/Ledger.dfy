/**
 One collection run as the sequence of transactions it commits, and what every history of runs keeps.
 Models Runner._run_one of core/runner.py over the store.  A process may die between any two
 transactions, and a write may raise, in which case the except path adds its own rows.
 */
module Ledger {
  import opened Common
  import opened Models
  import opened Health
  import opened Diff
  import opened Qualification
  import opened RunArchive
  import SchemaState

  datatype HealthRecord = HealthRecord(healthy: bool, observed: nat, previous: Option<nat>, warning: bool,
                                       error: Option<RunError>, checkedAt: Instant)

  /** `drawn` counts the UUIDs drawn so far: the next one is `drawn`, and it is new. */
  datatype Ledger = Ledger(archive: Archive, book: Book, health: map<string, HealthRecord>, drawn: nat)

  const EMPTY_LEDGER := Ledger(EMPTY_ARCHIVE, Book([], []), map[], 0)

  datatype Collector = Collector(name: string, tier: CollectorTier, zeroIsFailure: bool)

  datatype Provenance = Provenance(appVersion: Option<string>, configFingerprint: Option<string>,
                                   gitRevision: Option<string>, trigger: Trigger)

  datatype Collected = Raised | Returned(observations: seq<Observation>)

  /** A run and what befalls it: the collector's answer, the clock, and which of the three writes of the
      try block raise. */
  datatype RunInput = RunInput(
    collector: Collector, provenance: Provenance, scope: RunScope, config: RunnerConfig, startedAt: Instant,
    finishedAt: Instant, collected: Collected, saveFails: bool, terminalFails: bool, healthFails: bool)

  function MaterialOf(run: RunInput): Material {
    Material(run.provenance.appVersion, run.provenance.configFingerprint, run.provenance.gitRevision,
             SchemaState.EXPECTED_SCHEMA_VERSION, run.scope)
  }

  // ---------------------------------------------------------------- the run

  /** What the run knows once its epoch is prepared. */
  datatype Opening = Opening(ledger: Ledger, execution: nat, epoch: EpochRow, previous: Catalogue, previousCount: Option<nat>)

  function Open(l: Ledger, run: RunInput): Opening {
    var (book, epoch) := Prepare(l.book, run.collector.name, l.drawn, MaterialOf(run), run.provenance.trigger,
                                 run.startedAt, l.drawn + 1);
    var previous := LastHealthyCatalogue(l.archive, run.collector.name, Some(epoch.epochId));
    Opening(l.(book := book, drawn := if book == l.book then l.drawn + 1 else l.drawn + 2), l.drawn, epoch, previous,
            if LastHealthyRun(l.archive.runs, run.collector.name, Some(epoch.epochId)).Some? then Some(|previous|) else None)
  }

  function Attempted(run: RunInput): nat {
    if run.collected.Returned? then |run.collected.observations| else 0
  }

  predicate OwnObservations(run: RunInput)
    requires run.collected.Returned?
  {
    forall i :: 0 <= i < |run.collected.observations| ==> run.collected.observations[i].collector == run.collector.name
  }

  /** The checks of the try block, in order.  Ok carries whether the catalogue shrank suspiciously. */
  function Judge(run: RunInput, previousCount: Option<nat>): Result<bool, RunError> {
    if run.collected.Raised? then Err(CollectorRaised)
    else if !OwnObservations(run) then Err(WrongCollectorName)
    else if !UniqueIdentities(run.collected.observations) then Err(DuplicateIdentities)
    else
      match AssessCatalogue(|run.collected.observations|, previousCount, run.collector.zeroIsFailure && run.config.zeroIsFailure,
                            run.config.warning, run.config.failure)
      case Ok(warning) => Ok(warning)
      case Err(e) => Err(Unhealthy(e))
  }

  /** Nothing on a baseline, the diff against the epoch's last healthy catalogue otherwise. */
  function Found(run: RunInput, o: Opening): seq<Discovery>
    requires run.collected.Returned?
  {
    if o.previousCount.None? then []
    else CatalogueDiff(o.previous, CatalogueOf(run.collected.observations), run.finishedAt)
  }

  function HealthyRow(run: RunInput, o: Opening, warning: bool): RunRow
    requires run.collected.Returned?
  {
    RunRow(run.collector.name, run.startedAt, run.finishedAt, true, |run.collected.observations|, warning, None,
           |Found(run, o)|, Some(o.execution), run.provenance.trigger, Some(o.epoch.epochId), Some(MaterialOf(run)))
  }

  function FailedRow(run: RunInput, o: Opening, error: RunError): RunRow {
    RunRow(run.collector.name, run.startedAt, run.finishedAt, false, 0, false, Some(error), 0, Some(o.execution),
           run.provenance.trigger, Some(o.epoch.epochId), Some(MaterialOf(run)))
  }

  function WithRun(l: Ledger, row: RunRow, obs: seq<Observation>, found: seq<Discovery>): Ledger {
    match SaveRun(l.archive, row, obs, found)
    case Ok(archive) => l.(archive := archive)
    case Err(_) => l
  }

  function WithTerminal(l: Ledger, run: RunInput, o: Opening, healthy: bool): Ledger {
    l.(book := RecordTerminal(l.book, TerminalRow(run.collector.name, o.execution, o.epoch.epochId, MaterialOf(run),
                                                  run.provenance.trigger, healthy, run.finishedAt)))
  }

  function WithHealth(l: Ledger, collector: string, record: HealthRecord): Ledger {
    l.(health := l.health[collector := record])
  }

  /** The except path: three more transactions from wherever the try block stopped. */
  function FailedStates(l: Ledger, run: RunInput, o: Opening, error: RunError): seq<Ledger> {
    var saved := WithRun(l, FailedRow(run, o, error), [], []);
    var recorded := WithTerminal(saved, run, o, false);
    [saved, recorded,
     WithHealth(recorded, run.collector.name,
                HealthRecord(false, Attempted(run), o.previousCount, false, Some(error), run.finishedAt))]
  }

  /** The transactions after a healthy run is saved. */
  function ConcludedStates(l: Ledger, run: RunInput, o: Opening, warning: bool): (states: seq<Ledger>)
    ensures |states| > 0
  {
    var recorded := WithTerminal(l, run, o, true);
    if run.terminalFails then FailedStates(l, run, o, StoreFailed)
    else if run.healthFails then [recorded] + FailedStates(recorded, run, o, StoreFailed)
    else
      [recorded,
       WithHealth(recorded, run.collector.name,
                  HealthRecord(true, Attempted(run), o.previousCount, warning, None, run.finishedAt))]
  }

  function HealthyStates(run: RunInput, o: Opening, warning: bool): (states: seq<Ledger>)
    requires run.collected.Returned?
    ensures |states| > 0
  {
    var saved := WithRun(o.ledger, HealthyRow(run, o, warning), run.collected.observations, Found(run, o));
    if run.saveFails then FailedStates(o.ledger, run, o, StoreFailed)
    else [saved] + ConcludedStates(saved, run, o, warning)
  }

  /** The transactions once the epoch is prepared. */
  function JudgedStates(run: RunInput, o: Opening): (states: seq<Ledger>)
    ensures |states| > 0
  {
    match Judge(run, o.previousCount)
    case Err(error) => FailedStates(o.ledger, run, o, error)
    case Ok(warning) => HealthyStates(run, o, warning)
  }

  /** The ledger after each transaction the run commits. */
  function RunStates(l: Ledger, run: RunInput): (states: seq<Ledger>)
    ensures |states| > 0
  {
    var o := Open(l, run);
    [o.ledger] + JudgedStates(run, o)
  }

  function Last(states: seq<Ledger>): Ledger
    requires |states| > 0
  {
    states[|states| - 1]
  }

  /** The ledger a run leaves when its process dies after `lives` transactions, or at its end. */
  function RunFor(l: Ledger, run: RunInput, lives: nat): Ledger {
    var states := RunStates(l, run);
    if lives == 0 then l else if lives <= |states| then states[lives - 1] else Last(states)
  }

  /** The ledger `n` transactions into these states. */
  function StateAfter(l: Ledger, states: seq<Ledger>, n: nat): Ledger
    requires n <= |states|
  {
    if n == 0 then l else states[n - 1]
  }

  lemma StateAfterPrefix(l: Ledger, first: Ledger, rest: seq<Ledger>, n: nat)
    requires n <= |rest|
    ensures StateAfter(l, [first] + rest, 1 + n) == StateAfter(first, rest, n)
  {
  }

  /** What can go wrong outside the try block: preparing the epoch raises, reading what it last saw raises, or
      the except path itself does after so many of its three writes.  Each exception leaves the runner. */
  datatype Outside = Outside(prepares: bool, recalls: bool, exceptWrites: nat)

  predicate EntersExcept(run: RunInput, o: Opening) {
    Judge(run, o.previousCount).Err? || run.saveFails || run.terminalFails || run.healthFails
  }

  predicate Escapes(l: Ledger, run: RunInput, x: Outside) {
    !x.prepares || !x.recalls || (EntersExcept(run, Open(l, run)) && x.exceptWrites < 3)
  }

  /** How many transactions are committed out of `n`, the last three of which are the except path's. */
  function Reach(n: nat, excepting: bool, exceptWrites: nat): nat
    requires excepting ==> 3 <= n
  {
    if excepting && exceptWrites < 3 then n - 3 + exceptWrites else n
  }

  lemma ExceptPathComesLast(run: RunInput, o: Opening)
    ensures EntersExcept(run, o) ==> 3 <= |JudgedStates(run, o)|
  {
  }

  /** How many transactions the run lives to commit. */
  function Lives(l: Ledger, run: RunInput, x: Outside): nat {
    var o := Open(l, run);
    ExceptPathComesLast(run, o);
    if !x.prepares then 0
    else if !x.recalls then 1
    else 1 + Reach(|JudgedStates(run, o)|, EntersExcept(run, o), x.exceptWrites)
  }

  /** The ledger it leaves, read from its prepared epoch on. */
  lemma LivesOn(l: Ledger, run: RunInput, x: Outside)
    requires x.prepares && x.recalls
    ensures var o := Open(l, run);
            && (EntersExcept(run, o) ==> 3 <= |JudgedStates(run, o)|)
            && RunFor(l, run, Lives(l, run, x)) ==
               StateAfter(o.ledger, JudgedStates(run, o), Reach(|JudgedStates(run, o)|, EntersExcept(run, o), x.exceptWrites))
  {
    var o := Open(l, run);
    ExceptPathComesLast(run, o);
    StateAfterPrefix(l, o.ledger, JudgedStates(run, o), Reach(|JudgedStates(run, o)|, EntersExcept(run, o), x.exceptWrites));
  }

  datatype Episode = Episode(run: RunInput, lives: nat)

  function History(l: Ledger, episodes: seq<Episode>): Ledger
    decreases |episodes|
  {
    if episodes == [] then l else History(RunFor(l, episodes[0].run, episodes[0].lives), episodes[1..])
  }

  // ---------------------------------------------------------------- what every history keeps

  /** The run was made under an epoch of its collector that carries its material, no later than the
      collector's current one. */
  ghost predicate RunPlaced(b: Book, row: RunRow) {
    && row.epoch.Some?
    && (exists k :: 0 <= k < |b.epochs| && b.epochs[k].collector == row.collector && Some(b.epochs[k].epochId) == row.epoch
                    && Some(b.epochs[k].material) == row.material)
    && CurrentEpoch(b.epochs, row.collector).Some?
    && row.epoch.value <= CurrentEpoch(b.epochs, row.collector).value.epochId
  }

  ghost predicate EpochsNeverGoBack(runs: seq<RunRow>) {
    forall i, j :: 0 <= i < j < |runs| && runs[i].collector == runs[j].collector && runs[i].epoch.Some? && runs[j].epoch.Some? ==>
      runs[i].epoch.value <= runs[j].epoch.value
  }

  /** A stored discovery belongs to a healthy run that was not the first of its epoch. */
  ghost predicate FoundAfterBaseline(a: Archive, d: nat)
    requires d < |a.discoveries|
  {
    var r := a.discoveries[d].run;
    && r < |a.runs| && a.runs[r].healthy && a.runs[r].epoch.Some?
    && HealthyRuns(a.runs[..r], a.runs[r].collector, a.runs[r].epoch.value) != []
  }

  ghost predicate SavedRun(a: Archive, r: nat)
    requires r < |a.runs| == |a.observations|
  {
    a.runs[r].healthy ==> UniqueIdentities(a.observations[r]) && a.runs[r].observationCount == |a.observations[r]|
  }

  ghost predicate Told(a: Archive) {
    Shaped(a) && forall c: string, e: nat :: Story(a, c, e)
  }

  ghost predicate ExecutionsDrawn(l: Ledger) {
    forall i :: 0 <= i < |l.book.events| ==> l.book.events[i].execution < l.drawn
  }

  ghost predicate Consistent(l: Ledger) {
    && Told(l.archive)
    && BookInv(l.book, l.drawn)
    && ExecutionsDrawn(l)
    && (forall r :: 0 <= r < |l.archive.runs| ==> RunPlaced(l.book, l.archive.runs[r]) && SavedRun(l.archive, r))
    && EpochsNeverGoBack(l.archive.runs)
    && (forall d :: 0 <= d < |l.archive.discoveries| ==> FoundAfterBaseline(l.archive, d))
  }

  /** The opening is still the one in force. */
  ghost predicate InForce(l: Ledger, run: RunInput, o: Opening) {
    && CurrentEpoch(l.book.epochs, run.collector.name) == Some(o.epoch)
    && o.epoch in l.book.epochs && o.epoch.collector == run.collector.name && o.epoch.material == MaterialOf(run)
    && o.execution < l.drawn && Epochs(l.book, run.collector.name) != []
  }

  lemma PrepareKeepsRunsPlaced(b: Book, drawn: nat, name: string, execution: nat, material: Material, trigger: Trigger,
                               at: Instant, newId: nat, row: RunRow)
    requires BookInv(b, drawn) && drawn <= newId && RunPlaced(b, row)
    ensures RunPlaced(Prepare(b, name, execution, material, trigger, at, newId).0, row)
  {
    var (b', epoch) := Prepare(b, name, execution, material, trigger, at, newId);
    PrepareGivesTheCurrentEpoch(b, name, execution, material, trigger, at, newId);
    CurrentIsMember(b.epochs, row.collector);
    var k :| 0 <= k < |b.epochs| && b.epochs[k].collector == row.collector
             && Some(b.epochs[k].epochId) == row.epoch && Some(b.epochs[k].material) == row.material;
    assert b'.epochs[k] == b.epochs[k];
  }

  lemma PreparedBook(l: Ledger, run: RunInput)
    requires BookInv(l.book, l.drawn)
    ensures BookInv(Open(l, run).ledger.book, Open(l, run).ledger.drawn)
  {
    assert BookInv(l.book, l.drawn + 1);
    PrepareKeepsTheBook(l.book, run.collector.name, l.drawn, MaterialOf(run), run.provenance.trigger, run.startedAt, l.drawn + 1);
  }

  lemma PreparedExecutions(l: Ledger, run: RunInput)
    requires ExecutionsDrawn(l)
    ensures ExecutionsDrawn(Open(l, run).ledger)
  {
  }

  lemma OpeningIsInForce(l: Ledger, run: RunInput)
    ensures InForce(Open(l, run).ledger, run, Open(l, run))
  {
    var o, name := Open(l, run), run.collector.name;
    PrepareGivesTheCurrentEpoch(l.book, name, l.drawn, MaterialOf(run), run.provenance.trigger, run.startedAt, l.drawn + 1);
    FilterMember(o.ledger.book.epochs, EpochOf(name), o.epoch);
  }

  lemma OpenIsConsistent(l: Ledger, run: RunInput)
    requires Consistent(l)
    ensures Consistent(Open(l, run).ledger) && InForce(Open(l, run).ledger, run, Open(l, run))
  {
    OpeningIsInForce(l, run);
    PreparedBook(l, run);
    PreparedExecutions(l, run);
    var l' := Open(l, run).ledger;
    assert l'.archive == l.archive;
    forall r | 0 <= r < |l.archive.runs| ensures RunPlaced(l'.book, l.archive.runs[r]) {
      PrepareKeepsRunsPlaced(l.book, l.drawn, run.collector.name, l.drawn, MaterialOf(run), run.provenance.trigger,
                             run.startedAt, l.drawn + 1, l.archive.runs[r]);
    }
  }

  lemma TerminalIsConsistent(l: Ledger, run: RunInput, o: Opening, healthy: bool)
    requires Consistent(l) && InForce(l, run, o)
    ensures var l' := WithTerminal(l, run, o, healthy);
            Consistent(l') && InForce(l', run, o) && l'.archive == l.archive
  {
    var row := TerminalRow(run.collector.name, o.execution, o.epoch.epochId, MaterialOf(run), run.provenance.trigger,
                           healthy, run.finishedAt);
    var k :| 0 <= k < |l.book.epochs| && l.book.epochs[k] == o.epoch;
    RecordKeepsTheBook(l.book, row, l.drawn);
  }

  lemma NewRunIsPlaced(l: Ledger, run: RunInput, o: Opening, row: RunRow, a: Archive)
    requires Consistent(l) && InForce(l, run, o)
    requires row.collector == run.collector.name && row.epoch == Some(o.epoch.epochId) && row.material == Some(MaterialOf(run))
    requires a.runs == l.archive.runs + [row] && |a.observations| == |a.runs|
    requires a.observations[..|l.archive.runs|] == l.archive.observations && SavedRun(a, |l.archive.runs|)
    ensures forall r :: 0 <= r < |a.runs| ==> RunPlaced(l.book, a.runs[r]) && SavedRun(a, r)
    ensures EpochsNeverGoBack(a.runs)
  {
    var n := |l.archive.runs|;
    var k :| 0 <= k < |l.book.epochs| && l.book.epochs[k] == o.epoch;
    forall r | 0 <= r < |a.runs| ensures RunPlaced(l.book, a.runs[r]) && SavedRun(a, r) {
      if r < n {
        assert RunPlaced(l.book, l.archive.runs[r]) && SavedRun(l.archive, r);
        assert a.observations[..n][r] == a.observations[r];
      }
    }
  }

  lemma FailedRunIsConsistent(l: Ledger, run: RunInput, o: Opening, error: RunError)
    requires Consistent(l) && InForce(l, run, o)
    ensures var l' := WithRun(l, FailedRow(run, o, error), [], []);
            Consistent(l') && InForce(l', run, o)
  {
    var row := FailedRow(run, o, error);
    var a, a' := l.archive, SaveRun(l.archive, row, [], []).value;
    forall c: string, e: nat ensures Story(a', c, e) {
      FailedRunKeepsStory(a, row, c, e);
    }
    NewRunIsPlaced(l, run, o, row, a');
    OldDiscoveriesStay(a, a', row);
  }

  lemma OldDiscoveriesStay(a: Archive, a': Archive, row: RunRow)
    requires Shaped(a) && a'.runs == a.runs + [row] && |a.discoveries| <= |a'.discoveries|
    requires a'.discoveries[..|a.discoveries|] == a.discoveries
    requires forall d :: 0 <= d < |a.discoveries| ==> FoundAfterBaseline(a, d)
    ensures forall d :: 0 <= d < |a.discoveries| ==> FoundAfterBaseline(a', d)
  {
    forall d | 0 <= d < |a.discoveries| ensures FoundAfterBaseline(a', d) {
      assert FoundAfterBaseline(a, d);
      assert a'.discoveries[..|a.discoveries|][d] == a'.discoveries[d];
      var r := a.discoveries[d].run;
      assert a'.runs[..r] == a.runs[..r] && a'.runs[r] == a.runs[r];
    }
  }

  lemma FoundIsTheDiff(l: Ledger, run: RunInput, warning: bool)
    requires run.collected.Returned?
    ensures var o := Open(l, run);
            FoundByDiff(l.archive, HealthyRow(run, o, warning), run.collected.observations, Found(run, o), run.finishedAt)
  {
    LastHealthyIsNewest(l.archive.runs, run.collector.name, Open(l, run).epoch.epochId);
  }

  lemma HealthyStories(a: Archive, row: RunRow, obs: seq<Observation>, found: seq<Discovery>, now: Instant)
    requires Told(a) && row.healthy && UniqueIdentities(obs) && FoundByDiff(a, row, obs, found, now)
    ensures SaveRun(a, row, obs, found).Ok? && forall c: string, e: nat :: Story(SaveRun(a, row, obs, found).value, c, e)
  {
    forall c: string, e: nat ensures Story(SaveRun(a, row, obs, found).value, c, e) {
      assert Story(a, c, e);
      HealthyRunContinuesStory(a, row, obs, found, now, c, e);
    }
  }

  lemma NewDiscoveriesAreFound(a: Archive, a': Archive, run: RunInput, o: Opening, warning: bool)
    requires Shaped(a) && run.collected.Returned? && UniqueIdentities(run.collected.observations)
    requires SaveRun(a, HealthyRow(run, o, warning), run.collected.observations, Found(run, o)) == Ok(a')
    requires o.previousCount.Some? ==> LastHealthyRun(a.runs, run.collector.name, Some(o.epoch.epochId)).Some?
    requires forall d :: 0 <= d < |a.discoveries| ==> FoundAfterBaseline(a, d)
    ensures Shaped(a') && forall d :: 0 <= d < |a'.discoveries| ==> FoundAfterBaseline(a', d)
  {
    OldDiscoveriesStay(a, a', HealthyRow(run, o, warning));
    LastHealthyIsNewest(a.runs, run.collector.name, o.epoch.epochId);
    assert a'.runs[..|a.runs|] == a.runs;
  }

  lemma HealthyRunIsConsistent(l: Ledger, run: RunInput, warning: bool)
    requires Consistent(l) && Judge(run, Open(l, run).previousCount) == Ok(warning)
    ensures var o := Open(l, run);
            var l' := WithRun(o.ledger, HealthyRow(run, o, warning), run.collected.observations, Found(run, o));
            Consistent(l') && InForce(l', run, o)
  {
    OpenIsConsistent(l, run);
    var o := Open(l, run);
    var row := HealthyRow(run, o, warning);
    FoundIsTheDiff(l, run, warning);
    HealthyStories(l.archive, row, run.collected.observations, Found(run, o), run.finishedAt);
    assert o.ledger.archive == l.archive;
    var a' := SaveRun(l.archive, row, run.collected.observations, Found(run, o)).value;
    NewRunIsPlaced(o.ledger, run, o, row, a');
    NewDiscoveriesAreFound(l.archive, a', run, o, warning);
  }

  ghost predicate AllConsistent(states: seq<Ledger>) {
    forall i :: 0 <= i < |states| ==> Consistent(states[i])
  }

  lemma Prefixed(first: seq<Ledger>, rest: seq<Ledger>)
    requires AllConsistent(first) && AllConsistent(rest)
    ensures AllConsistent(first + rest)
  {
  }

  /** The health table is not part of the consistency. */
  lemma HealthLeavesTheRest(l: Ledger, collector: string, record: HealthRecord)
    requires Consistent(l)
    ensures Consistent(WithHealth(l, collector, record))
  {
  }

  lemma ThreeConsistent(first: Ledger, second: Ledger, third: Ledger)
    requires Consistent(first) && Consistent(second) && Consistent(third)
    ensures AllConsistent([first, second, third])
  {
  }

  lemma FailedStatesAreConsistent(l: Ledger, run: RunInput, o: Opening, error: RunError)
    requires Consistent(l) && InForce(l, run, o)
    ensures AllConsistent(FailedStates(l, run, o, error))
  {
    FailedRunIsConsistent(l, run, o, error);
    var saved := WithRun(l, FailedRow(run, o, error), [], []);
    TerminalIsConsistent(saved, run, o, false);
    var recorded := WithTerminal(saved, run, o, false);
    var record := HealthRecord(false, Attempted(run), o.previousCount, false, Some(error), run.finishedAt);
    HealthLeavesTheRest(recorded, run.collector.name, record);
    ThreeConsistent(saved, recorded, WithHealth(recorded, run.collector.name, record));
  }

  lemma ConcludedStatesAreConsistent(l: Ledger, run: RunInput, o: Opening, warning: bool)
    requires Consistent(l) && InForce(l, run, o)
    ensures AllConsistent(ConcludedStates(l, run, o, warning))
  {
    var recorded := WithTerminal(l, run, o, true);
    TerminalIsConsistent(l, run, o, true);
    if run.terminalFails {
      FailedStatesAreConsistent(l, run, o, StoreFailed);
    } else if run.healthFails {
      FailedStatesAreConsistent(recorded, run, o, StoreFailed);
      Prefixed([recorded], FailedStates(recorded, run, o, StoreFailed));
    } else {
      HealthLeavesTheRest(recorded, run.collector.name,
                          HealthRecord(true, Attempted(run), o.previousCount, warning, None, run.finishedAt));
    }
  }

  lemma HealthyStatesAreConsistent(run: RunInput, o: Opening, warning: bool)
    requires run.collected.Returned? && Consistent(o.ledger) && InForce(o.ledger, run, o)
    requires var saved := WithRun(o.ledger, HealthyRow(run, o, warning), run.collected.observations, Found(run, o));
             Consistent(saved) && InForce(saved, run, o)
    ensures AllConsistent(HealthyStates(run, o, warning))
  {
    if run.saveFails {
      FailedStatesAreConsistent(o.ledger, run, o, StoreFailed);
    } else {
      var saved := WithRun(o.ledger, HealthyRow(run, o, warning), run.collected.observations, Found(run, o));
      ConcludedStatesAreConsistent(saved, run, o, warning);
      Prefixed([saved], ConcludedStates(saved, run, o, warning));
    }
  }

  lemma AcceptedStatesAreConsistent(l: Ledger, run: RunInput, warning: bool)
    requires Consistent(l) && Judge(run, Open(l, run).previousCount) == Ok(warning)
    ensures AllConsistent(HealthyStates(run, Open(l, run), warning))
  {
    OpenIsConsistent(l, run);
    HealthyRunIsConsistent(l, run, warning);
    HealthyStatesAreConsistent(run, Open(l, run), warning);
  }

  lemma JudgedStatesAreConsistent(l: Ledger, run: RunInput)
    requires Consistent(l)
    ensures AllConsistent(JudgedStates(run, Open(l, run)))
  {
    var o := Open(l, run);
    match Judge(run, o.previousCount)
    case Err(error) =>
      OpenIsConsistent(l, run);
      FailedStatesAreConsistent(o.ledger, run, o, error);
    case Ok(warning) => AcceptedStatesAreConsistent(l, run, warning);
  }

  /** Every transaction of a run leaves a consistent ledger, whatever raises. */
  lemma RunStatesAreConsistent(l: Ledger, run: RunInput)
    requires Consistent(l)
    ensures AllConsistent(RunStates(l, run))
  {
    OpenIsConsistent(l, run);
    JudgedStatesAreConsistent(l, run);
    Prefixed([Open(l, run).ledger], JudgedStates(run, Open(l, run)));
  }

  lemma {:induction false} HistoryIsConsistent(l: Ledger, episodes: seq<Episode>)
    requires Consistent(l)
    ensures Consistent(History(l, episodes))
    decreases |episodes|
  {
    if episodes != [] {
      RunStatesAreConsistent(l, episodes[0].run);
      HistoryIsConsistent(RunFor(l, episodes[0].run, episodes[0].lives), episodes[1..]);
    }
  }

  lemma EmptyIsConsistent()
    ensures Consistent(EMPTY_LEDGER)
  {
  }
}
