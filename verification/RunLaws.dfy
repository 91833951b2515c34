/**
 What a run leaves in the store, told from its own input: which check it fails, every field of its rows, its
 terminal and its health record, and what that means for every history and for the gate.
 */
module RunLaws {
  import opened Common
  import opened Models
  import opened Health
  import opened Diff
  import opened Qualification
  import opened RunArchive
  import opened Ledger
  import opened LedgerHistory

  // ---------------------------------------------------------------- the checks

  predicate Foreign(run: RunInput) {
    run.collected.Returned? && exists o :: o in run.collected.observations && o.collector != run.collector.name
  }

  predicate Repeated(run: RunInput) {
    run.collected.Returned?
    && exists i, j :: 0 <= i < j < |run.collected.observations|
                      && run.collected.observations[i].identity == run.collected.observations[j].identity
  }

  /** Nothing was observed, and both the collector and the configuration call that a failure. */
  predicate Empty(run: RunInput) {
    run.collected == Returned([]) && run.collector.zeroIsFailure && run.config.zeroIsFailure
  }

  function Seen(run: RunInput): nat {
    match run.collected
    case Returned(observations) => |observations|
    case Raised => 0
  }

  /** Fewer than this share of what the epoch's newest healthy run saw. */
  predicate Shrunk(run: RunInput, newest: Option<nat>, share: Ratio) {
    newest.Some? && newest.value > 0 && Seen(run) * share.den < newest.value * share.num
  }

  ghost predicate Passes(run: RunInput, newest: Option<nat>) {
    run.collected.Returned? && !Foreign(run) && !Repeated(run) && !Empty(run) && !Shrunk(run, newest, run.config.failure)
  }

  /** The first check a run fails, or the store. */
  ghost predicate ErrorTells(error: RunError, run: RunInput, newest: Option<nat>) {
    && (error == CollectorRaised <==> run.collected == Raised)
    && (error == WrongCollectorName <==> Foreign(run))
    && (error == DuplicateIdentities <==> !Foreign(run) && Repeated(run))
    && (error == Unhealthy(UnexpectedZero) <==> Empty(run))
    && (error == Unhealthy(CatalogueCollapse) <==>
          run.collected.Returned? && !Foreign(run) && !Repeated(run) && !Empty(run) && Shrunk(run, newest, run.config.failure))
    && (error == StoreFailed <==> Passes(run, newest))
  }

  lemma JudgeIsExact(run: RunInput, newest: Option<nat>)
    ensures Judge(run, newest).Ok? <==> Passes(run, newest)
    ensures Judge(run, newest).Ok? ==> Judge(run, newest).value == Shrunk(run, newest, run.config.warning)
    ensures Judge(run, newest).Err? ==> ErrorTells(Judge(run, newest).error, run, newest)
    ensures Judge(run, newest).Ok? ==> ErrorTells(StoreFailed, run, newest)
  {
    if run.collected.Returned? {
      var obs := run.collected.observations;
      OwnIsNotForeign(run);
      UniqueIsNotRepeated(run);
      AssessmentIsExact(|obs|, newest, run.collector.zeroIsFailure && run.config.zeroIsFailure, run.config.warning,
                        run.config.failure);
      assert Empty(run) <==> |obs| == 0 && run.collector.zeroIsFailure && run.config.zeroIsFailure;
    }
  }

  lemma OwnIsNotForeign(run: RunInput)
    requires run.collected.Returned?
    ensures OwnObservations(run) <==> !Foreign(run)
  {
    var obs := run.collected.observations;
    if o :| o in obs && o.collector != run.collector.name {
      var i :| 0 <= i < |obs| && obs[i] == o;
    }
    forall i | 0 <= i < |obs| ensures obs[i] in obs {
    }
  }

  lemma UniqueIsNotRepeated(run: RunInput)
    requires run.collected.Returned?
    ensures UniqueIdentities(run.collected.observations) <==> !Repeated(run)
  {
  }

  // ---------------------------------------------------------------- the rows

  ghost predicate MaterialTells(m: Material, run: RunInput) {
    && m.appVersion == run.provenance.appVersion && m.configFingerprint == run.provenance.configFingerprint
    && m.gitRevision == run.provenance.gitRevision && m.schemaVersion == 4 && m.scope == run.scope
  }

  ghost predicate RowTells(row: RunRow, run: RunInput, execution: nat, epoch: nat) {
    && row.collector == run.collector.name && row.startedAt == run.startedAt && row.finishedAt == run.finishedAt
    && row.execution == Some(execution) && row.epoch == Some(epoch) && row.trigger == run.provenance.trigger
    && row.material.Some? && MaterialTells(row.material.value, run)
  }

  /** The row of an accepted catalogue: its size, its warning, and how much the diff found. */
  ghost predicate AcceptedRow(row: RunRow, run: RunInput, execution: nat, epoch: nat, newest: Option<nat>, found: nat) {
    && RowTells(row, run, execution, epoch) && run.collected.Returned? && Passes(run, newest)
    && row.healthy && row.error == None && row.observationCount == |run.collected.observations|
    && row.warning == Shrunk(run, newest, run.config.warning) && row.discoveryCount == found
  }

  /** The row the except path writes. */
  ghost predicate RejectedRow(row: RunRow, run: RunInput, execution: nat, epoch: nat, newest: Option<nat>) {
    && RowTells(row, run, execution, epoch)
    && !row.healthy && row.error.Some? && ErrorTells(row.error.value, run, newest)
    && row.observationCount == 0 && !row.warning && row.discoveryCount == 0
  }

  /** The count of the epoch's newest healthy run. */
  ghost function Newest(l: Ledger, collector: string, epoch: nat): Option<nat> {
    var counts := Counts(l.archive.runs, collector, epoch);
    if counts == [] then None else Some(counts[|counts| - 1])
  }

  lemma JudgedAgainstTheNewest(l: Ledger, run: RunInput)
    requires Consistent(l)
    ensures Open(l, run).previousCount == Newest(l, run.collector.name, Open(l, run).epoch.epochId)
  {
    OpenedOnTheNewestCount(l, run);
    LastHealthyIsNewest(l.archive.runs, run.collector.name, Open(l, run).epoch.epochId);
  }

  /** What a run that finds these discoveries adds to the archive, wherever it stops: nothing, the row of its
      catalogue, the row of its failure, or, when a write fails after the catalogue was saved, both. */
  ghost predicate ArchiveTells(a: Archive, after: Archive, run: RunInput, execution: nat, epoch: nat, newest: Option<nat>,
                               found: seq<Discovery>) {
    var n := |a.runs|;
    || after == a
    || (&& |after.runs| == n + 1 && after.runs[..n] == a.runs && RejectedRow(after.runs[n], run, execution, epoch, newest)
        && (Passes(run, newest) ==> run.saveFails)
        && after.observations == a.observations + [[]] && after.discoveries == a.discoveries)
    || (&& (|after.runs| == n + 1 || |after.runs| == n + 2) && after.runs[..n] == a.runs
        && AcceptedRow(after.runs[n], run, execution, epoch, newest, |found|) && !run.saveFails
        && (|after.runs| == n + 2 ==> RejectedRow(after.runs[n + 1], run, execution, epoch, newest)
                                      && (run.terminalFails || run.healthFails))
        && after.observations == a.observations + [run.collected.observations] + (if |after.runs| == n + 2 then [[]] else [])
        && after.discoveries == a.discoveries + RowsFor(n, found))
  }

  lemma RowsAreTold(l: Ledger, run: RunInput)
    requires Consistent(l)
    ensures var o := Open(l, run);
            && (forall error :: ErrorTells(error, run, o.previousCount) ==>
                  RejectedRow(FailedRow(run, o, error), run, o.execution, o.epoch.epochId, o.previousCount))
            && (run.collected.Returned? && Passes(run, o.previousCount) ==>
                  AcceptedRow(HealthyRow(run, o, Shrunk(run, o.previousCount, run.config.warning)), run, o.execution,
                              o.epoch.epochId, o.previousCount, |Found(run, o)|))
  {
  }

  ghost predicate StatesTell(states: seq<Ledger>, a: Archive, run: RunInput, o: Opening, found: seq<Discovery>) {
    forall i :: 0 <= i < |states| ==>
      ArchiveTells(a, states[i].archive, run, o.execution, o.epoch.epochId, o.previousCount, found)
  }

  lemma FailedStatesTell(l: Ledger, run: RunInput, error: RunError, found: seq<Discovery>)
    requires Consistent(l) && ErrorTells(error, run, Open(l, run).previousCount)
    requires error == StoreFailed ==> run.saveFails
    ensures StatesTell(FailedStates(Open(l, run).ledger, run, Open(l, run), error), l.archive, run, Open(l, run), found)
  {
    RowsAreTold(l, run);
  }

  lemma ConcludedStatesTell(l: Ledger, saved: Ledger, run: RunInput, warning: bool)
    requires Consistent(l) && Judge(run, Open(l, run).previousCount) == Ok(warning) && !run.saveFails
    requires saved == WithRun(Open(l, run).ledger, HealthyRow(run, Open(l, run), warning), run.collected.observations,
                              Found(run, Open(l, run)))
    ensures ArchiveTells(l.archive, saved.archive, run, Open(l, run).execution, Open(l, run).epoch.epochId,
                         Open(l, run).previousCount, Found(run, Open(l, run)))
    ensures StatesTell(ConcludedStates(saved, run, Open(l, run), warning), l.archive, run, Open(l, run), Found(run, Open(l, run)))
  {
    JudgeIsExact(run, Open(l, run).previousCount);
    RowsAreTold(l, run);
  }

  lemma HealthyStatesTell(l: Ledger, run: RunInput, warning: bool)
    requires Consistent(l) && Judge(run, Open(l, run).previousCount) == Ok(warning)
    ensures StatesTell(HealthyStates(run, Open(l, run), warning), l.archive, run, Open(l, run), Found(run, Open(l, run)))
  {
    var o := Open(l, run);
    JudgeIsExact(run, o.previousCount);
    if run.saveFails {
      FailedStatesTell(l, run, StoreFailed, Found(run, o));
    } else {
      ConcludedStatesTell(l, WithRun(o.ledger, HealthyRow(run, o, warning), run.collected.observations, Found(run, o)),
                          run, warning);
    }
  }

  lemma NothingYetTells(first: Ledger, rest: seq<Ledger>, a: Archive, run: RunInput, o: Opening, found: seq<Discovery>)
    requires first.archive == a && StatesTell(rest, a, run, o, found)
    ensures StatesTell([first] + rest, a, run, o, found)
  {
  }

  lemma RunStatesTell(l: Ledger, run: RunInput)
    requires Consistent(l)
    ensures StatesTell(RunStates(l, run), l.archive, run, Open(l, run),
                       if run.collected.Returned? then Found(run, Open(l, run)) else [])
  {
    var o := Open(l, run);
    var found := if run.collected.Returned? then Found(run, o) else [];
    match Judge(run, o.previousCount) {
      case Err(error) =>
        JudgeIsExact(run, o.previousCount);
        FailedStatesTell(l, run, error, found);
      case Ok(warning) => HealthyStatesTell(l, run, warning);
    }
    NothingYetTells(o.ledger, JudgedStates(run, o), l.archive, run, o, found);
  }

  // ---------------------------------------------------------------- the terminal and the health record

  ghost predicate TerminalTells(e: EventRow, run: RunInput, execution: nat, epoch: nat, healthy: bool) {
    && e.collector == run.collector.name && e.kind == Terminal && e.execution == execution && e.epochId == epoch
    && MaterialTells(e.material, run) && e.components == Parsed(e.material) && e.trigger == run.provenance.trigger
    && e.healthy == Some(healthy) && e.previousEpoch == None && e.previousMaterial == None && e.at == run.finishedAt
  }

  /** Nothing went wrong up to the terminal. */
  ghost predicate Succeeds(run: RunInput, newest: Option<nat>) {
    Passes(run, newest) && !run.saveFails && !run.terminalFails
  }

  ghost predicate HealthTells(h: HealthRecord, run: RunInput, newest: Option<nat>) {
    && h.previous == newest && h.checkedAt == run.finishedAt && h.observed == Seen(run)
    && h.healthy == (Succeeds(run, newest) && !run.healthFails)
    && (h.healthy ==> h.error == None && h.warning == Shrunk(run, newest, run.config.warning))
    && (!h.healthy ==> h.error.Some? && ErrorTells(h.error.value, run, newest) && !h.warning)
  }

  /** What a run that reaches its end leaves: one terminal, one health record for its collector, and the rows it
      promised; each told from the run and the epoch's newest healthy count. */
  lemma RunLeaves(l: Ledger, run: RunInput)
    requires Consistent(l)
    ensures var o, after := Open(l, run), Last(RunStates(l, run));
            var newest, events := Newest(l, run.collector.name, o.epoch.epochId), after.book.events;
            && |events| == |o.ledger.book.events| + 1 && events[..|o.ledger.book.events|] == o.ledger.book.events
            && TerminalTells(events[|events| - 1], run, o.execution, o.epoch.epochId, Succeeds(run, newest))
            && run.collector.name in after.health && after.health == l.health[run.collector.name := after.health[run.collector.name]]
            && HealthTells(after.health[run.collector.name], run, newest)
            && ArchiveTells(l.archive, after.archive, run, o.execution, o.epoch.epochId, newest,
                            if run.collected.Returned? then Found(run, o) else [])
            && after.archive != l.archive
  {
    var o := Open(l, run);
    JudgedAgainstTheNewest(l, run);
    RunStatesTell(l, run);
    LastTerminalTells(l, run);
    LastHealthTells(l, run);
    SomeRowIsWritten(l, run);
  }

  lemma LastTerminalTells(l: Ledger, run: RunInput)
    requires Consistent(l)
    ensures var o, events := Open(l, run), Last(RunStates(l, run)).book.events;
            && |events| == |o.ledger.book.events| + 1 && events[..|o.ledger.book.events|] == o.ledger.book.events
            && TerminalTells(events[|events| - 1], run, o.execution, o.epoch.epochId, Succeeds(run, o.previousCount))
  {
    var o := Open(l, run);
    JudgeIsExact(run, o.previousCount);
    TerminalsOfARun(l, run, TerminalRow(run.collector.name, o.execution, o.epoch.epochId, MaterialOf(run),
                                        run.provenance.trigger, Succeeds(run, o.previousCount), run.finishedAt));
  }

  lemma LastHealthTells(l: Ledger, run: RunInput)
    ensures var o, after := Open(l, run), Last(RunStates(l, run));
            && run.collector.name in after.health && after.health == l.health[run.collector.name := after.health[run.collector.name]]
            && HealthTells(after.health[run.collector.name], run, o.previousCount)
  {
    JudgeIsExact(run, Open(l, run).previousCount);
  }

  lemma SomeRowIsWritten(l: Ledger, run: RunInput)
    ensures |Last(RunStates(l, run)).archive.runs| > |l.archive.runs|
  {
    if Judge(run, Open(l, run).previousCount).Ok? { JudgeIsExact(run, Open(l, run).previousCount); }
  }

  // ---------------------------------------------------------------- the gate after a run

  /** "unknown", in whatever case. */
  predicate SpellsUnknown(s: string) {
    |s| == 7 && forall i :: 0 <= i < 7 ==> s[i] == "unknown"[i] || s[i] == "UNKNOWN"[i]
  }

  /** A release version, a configuration and a revision are all known. */
  predicate Identified(p: Provenance) {
    && p.appVersion.Some? && p.appVersion.value != ""
    && p.configFingerprint.Some? && p.configFingerprint.value != ""
    && p.gitRevision.Some? && p.gitRevision.value != "" && !SpellsUnknown(p.gitRevision.value)
  }

  lemma LowerSpellsUnknown(s: string)
    ensures Qualification.Lower(s) == "unknown" <==> SpellsUnknown(s)
  {
    var word := "unknown";
    if |s| == 7 {
      forall i | 0 <= i < 7 ensures LowerChar(s[i]) == word[i] <==> s[i] == word[i] || s[i] == "UNKNOWN"[i] {
      }
      if SpellsUnknown(s) { assert forall i :: 0 <= i < 7 ==> Qualification.Lower(s)[i] == word[i]; }
    }
  }

  lemma MaterialIsTrustworthy(run: RunInput)
    ensures Trustworthy(MaterialOf(run)) <==> Identified(run.provenance)
  {
    if run.provenance.gitRevision.Some? { LowerSpellsUnknown(run.provenance.gitRevision.value); }
  }

  /** After a run that reaches its end the collector qualifies if and only if the run was triggered by a known
      class, its release, configuration and revision are identified, its checks passed, and the save and the
      terminal were written; whatever the history before it. */
  lemma GateFollowsTheRun(episodes: seq<Episode>, run: RunInput)
    ensures var l := History(EMPTY_LEDGER, episodes);
            var newest := Newest(l, run.collector.name, Open(l, run).epoch.epochId);
            QualificationGate(Last(RunStates(l, run)).book, run.collector.name, None, None).eligible <==>
            run.provenance.trigger != Unknown && Identified(run.provenance) && Succeeds(run, newest)
  {
    EveryHistoryIsConsistent(episodes);
    var l := History(EMPTY_LEDGER, episodes);
    RunStatesAreConsistent(l, run);
    RunLeaves(l, run);
    MaterialIsTrustworthy(run);
    var o, after := Open(l, run), Last(RunStates(l, run));
    GateIsExact(after.book, after.drawn, run.collector.name, None, None);
    EpochStaysActive(l, run);
    NewestTerminal(after.book.events, run.collector.name, o.epoch.epochId);
  }

  lemma EpochStaysActive(l: Ledger, run: RunInput)
    ensures CurrentEpoch(Last(RunStates(l, run)).book.epochs, run.collector.name) == Some(Open(l, run).epoch)
    ensures Open(l, run).epoch.material == MaterialOf(run)
  {
    RunKeepsEpochs(l, run);
    OpeningIsInForce(l, run);
  }

  lemma FailedKeepsEpochs(l: Ledger, run: RunInput, o: Opening, error: RunError)
    ensures Last(FailedStates(l, run, o, error)).book.epochs == l.book.epochs
  {
  }

  lemma ConcludedKeepsEpochs(l: Ledger, run: RunInput, o: Opening, warning: bool)
    ensures Last(ConcludedStates(l, run, o, warning)).book.epochs == l.book.epochs
  {
    FailedKeepsEpochs(l, run, o, StoreFailed);
    FailedKeepsEpochs(WithTerminal(l, run, o, true), run, o, StoreFailed);
  }

  lemma RunKeepsEpochs(l: Ledger, run: RunInput)
    ensures Last(RunStates(l, run)).book.epochs == Open(l, run).ledger.book.epochs
  {
    var o := Open(l, run);
    match Judge(run, o.previousCount)
    case Err(error) => FailedKeepsEpochs(o.ledger, run, o, error);
    case Ok(warning) =>
      FailedKeepsEpochs(o.ledger, run, o, StoreFailed);
      ConcludedKeepsEpochs(WithRun(o.ledger, HealthyRow(run, o, warning), run.collected.observations, Found(run, o)), run, o, warning);
  }

  lemma NewestTerminal(events: seq<EventRow>, collector: string, epoch: nat)
    requires events != []
    requires var e := events[|events| - 1]; e.collector == collector && e.kind == Terminal && e.epochId == epoch
    ensures LatestTerminal(events, collector, epoch) == Some(events[|events| - 1])
  {
  }

  // ---------------------------------------------------------------- the rows of any history

  /** Row `r` is what the run of episode `k` left, judged against the newest healthy count of its epoch then. */
  ghost predicate ComesFrom(a: Archive, r: nat, k: nat, episodes: seq<Episode>)
    requires r < |a.runs| && k < |episodes|
  {
    var before, run := History(EMPTY_LEDGER, episodes[..k]), episodes[k].run;
    var o := Open(before, run);
    var newest := Newest(before, run.collector.name, o.epoch.epochId);
    && |before.archive.runs| <= r && before.archive.runs == a.runs[..|before.archive.runs|]
    && (a.runs[r].healthy ==>
          && r == |before.archive.runs| && !run.saveFails
          && AcceptedRow(a.runs[r], run, o.execution, o.epoch.epochId, newest,
                         if run.collected.Returned? then |Found(run, o)| else 0))
    && (!a.runs[r].healthy ==> RejectedRow(a.runs[r], run, o.execution, o.epoch.epochId, newest))
  }

  lemma {:induction false} HistorySnoc(l: Ledger, episodes: seq<Episode>, last: Episode)
    ensures History(l, episodes + [last]) == RunFor(History(l, episodes), last.run, last.lives)
    decreases |episodes|
  {
    if episodes == [] {
      assert ([] + [last])[1..] == [];
    } else {
      assert (episodes + [last])[1..] == episodes[1..] + [last];
      HistorySnoc(RunFor(l, episodes[0].run, episodes[0].lives), episodes[1..], last);
    }
  }

  lemma RunForTells(l: Ledger, run: RunInput, lives: nat)
    requires Consistent(l)
    ensures var o := Open(l, run);
            ArchiveTells(l.archive, RunFor(l, run, lives).archive, run, o.execution, o.epoch.epochId,
                         Newest(l, run.collector.name, o.epoch.epochId), if run.collected.Returned? then Found(run, o) else [])
  {
    JudgedAgainstTheNewest(l, run);
    RunStatesTell(l, run);
  }

  lemma OldRowComesFrom(a: Archive, after: Archive, r: nat, k: nat, episodes: seq<Episode>, last: Episode)
    requires r < |a.runs| <= |after.runs| && after.runs[..|a.runs|] == a.runs && k < |episodes| && ComesFrom(a, r, k, episodes)
    ensures ComesFrom(after, r, k, episodes + [last])
  {
    assert (episodes + [last])[..k] == episodes[..k];
    var n := |History(EMPTY_LEDGER, episodes[..k]).archive.runs|;
    assert after.runs[..n] == after.runs[..|a.runs|][..n];
    assert after.runs[..|a.runs|][r] == a.runs[r];
  }

  lemma NewRowComesFrom(episodes: seq<Episode>, last: Episode, r: nat)
    requires var l := History(EMPTY_LEDGER, episodes);
             |l.archive.runs| <= r < |RunFor(l, last.run, last.lives).archive.runs|
    ensures ComesFrom(RunFor(History(EMPTY_LEDGER, episodes), last.run, last.lives).archive, r, |episodes|, episodes + [last])
  {
    EveryHistoryIsConsistent(episodes);
    var l := History(EMPTY_LEDGER, episodes);
    assert (episodes + [last])[..|episodes|] == episodes;
    RunForTells(l, last.run, last.lives);
    NewRowIsTold(l.archive, RunFor(l, last.run, last.lives).archive, last.run, Open(l, last.run).execution,
                 Open(l, last.run).epoch.epochId, Newest(l, last.run.collector.name, Open(l, last.run).epoch.epochId),
                 if last.run.collected.Returned? then Found(last.run, Open(l, last.run)) else [], r);
  }

  lemma NewRowIsTold(a: Archive, after: Archive, run: RunInput, execution: nat, epoch: nat, newest: Option<nat>,
                     found: seq<Discovery>, r: nat)
    requires ArchiveTells(a, after, run, execution, epoch, newest, found) && |a.runs| <= r < |after.runs|
    ensures after.runs[..|a.runs|] == a.runs
    ensures after.runs[r].healthy ==>
              r == |a.runs| && !run.saveFails && AcceptedRow(after.runs[r], run, execution, epoch, newest, |found|)
    ensures !after.runs[r].healthy ==> RejectedRow(after.runs[r], run, execution, epoch, newest)
  {
  }

  /** Every row of every history comes from one of its runs, and is what that run had to leave. */
  lemma {:induction false} RowsComeFromRuns(episodes: seq<Episode>, r: nat) returns (k: nat)
    requires r < |History(EMPTY_LEDGER, episodes).archive.runs|
    ensures k < |episodes| && ComesFrom(History(EMPTY_LEDGER, episodes).archive, r, k, episodes)
    decreases |episodes|
  {
    assert episodes != [];
    var front, last := episodes[..|episodes| - 1], episodes[|episodes| - 1];
    assert episodes == front + [last];
    HistorySnoc(EMPTY_LEDGER, front, last);
    RunsGrow(front, last);
    var l := History(EMPTY_LEDGER, front);
    if r < |l.archive.runs| {
      k := RowsComeFromRuns(front, r);
      OldRowComesFrom(l.archive, History(EMPTY_LEDGER, episodes).archive, r, k, front, last);
    } else {
      k := |front|;
      NewRowComesFrom(front, last, r);
    }
  }

  lemma RunsGrow(episodes: seq<Episode>, last: Episode)
    ensures var a, after := History(EMPTY_LEDGER, episodes).archive, RunFor(History(EMPTY_LEDGER, episodes), last.run, last.lives).archive;
            |a.runs| <= |after.runs| && after.runs[..|a.runs|] == a.runs
  {
    EveryHistoryIsConsistent(episodes);
    RunForTells(History(EMPTY_LEDGER, episodes), last.run, last.lives);
  }

  /** When every run of a collector calls an empty catalogue a failure, no healthy run of it is ever stored
      with nothing observed. */
  lemma NoEmptyCatalogueIsHealthy(episodes: seq<Episode>, collector: string, r: nat)
    requires forall i :: 0 <= i < |episodes| && episodes[i].run.collector.name == collector ==>
               episodes[i].run.collector.zeroIsFailure && episodes[i].run.config.zeroIsFailure
    requires r < |History(EMPTY_LEDGER, episodes).archive.runs|
    ensures var row := History(EMPTY_LEDGER, episodes).archive.runs[r];
            row.collector == collector && row.healthy ==> row.observationCount > 0
  {
    var k := RowsComeFromRuns(episodes, r);
    assert episodes[k].run.collected.Returned? && episodes[k].run.collected.observations == [] ==>
             episodes[k].run.collected == Returned([]);
  }

  /** A healthy run is stored with a warning if and only if its epoch had a healthy run before, the newest of
      which saw something, and this one saw less than the warning share of that. */
  lemma WarningsAreExact(episodes: seq<Episode>, collector: string, warning: Ratio, r: nat)
    requires forall i :: 0 <= i < |episodes| && episodes[i].run.collector.name == collector ==>
               episodes[i].run.config.warning == warning
    requires r < |History(EMPTY_LEDGER, episodes).archive.runs|
    ensures var runs := History(EMPTY_LEDGER, episodes).archive.runs;
            runs[r].collector == collector && runs[r].healthy ==>
              && runs[r].epoch.Some?
              && var counts := Counts(runs[..r], collector, runs[r].epoch.value);
                 runs[r].warning <==>
                 counts != [] && counts[|counts| - 1] > 0
                 && runs[r].observationCount * warning.den < counts[|counts| - 1] * warning.num
  {
    var k := RowsComeFromRuns(episodes, r);
    var runs := History(EMPTY_LEDGER, episodes).archive.runs;
    if runs[r].collector == collector && runs[r].healthy {
      WarningIsExact(History(EMPTY_LEDGER, episodes).archive, episodes, collector, warning, r, k);
    }
  }

  lemma WarningIsExact(a: Archive, episodes: seq<Episode>, collector: string, warning: Ratio, r: nat, k: nat)
    requires r < |a.runs| && k < |episodes| && ComesFrom(a, r, k, episodes)
    requires episodes[k].run.collector.name == collector ==> episodes[k].run.config.warning == warning
    requires a.runs[r].collector == collector && a.runs[r].healthy
    ensures a.runs[r].epoch.Some?
    ensures var counts := Counts(a.runs[..r], collector, a.runs[r].epoch.value);
            a.runs[r].warning <==>
            counts != [] && counts[|counts| - 1] > 0
            && a.runs[r].observationCount * warning.den < counts[|counts| - 1] * warning.num
  {
  }
}
