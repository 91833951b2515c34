/**
 What holds after every history of runs that starts from an empty store: any collectors, any materials,
 any answers, any write that raises, any process that dies between two transactions.
 */
module LedgerHistory {
  import opened Common
  import opened Models
  import opened Health
  import opened Diff
  import opened Qualification
  import opened RunArchive
  import opened Ledger

  lemma EveryHistoryIsConsistent(episodes: seq<Episode>)
    ensures Consistent(History(EMPTY_LEDGER, episodes))
  {
    EmptyIsConsistent();
    HistoryIsConsistent(EMPTY_LEDGER, episodes);
  }

  /** Replaying an epoch's stored discoveries over its baseline agrees with its latest healthy catalogue on
      every identity of that catalogue; whatever else is left is a news item; without news the two are equal. */
  lemma DiscoveriesReplayToTheCatalogue(episodes: seq<Episode>, collector: string, epoch: nat)
    requires HealthyRuns(History(EMPTY_LEDGER, episodes).archive.runs, collector, epoch) != []
    ensures var a := History(EMPTY_LEDGER, episodes).archive;
            && Agrees(ReplayedImage(a, collector, epoch), LatestCatalogue(a, collector, epoch))
            && (NewsFree(a, collector, epoch) ==>
                  ReplayedImage(a, collector, epoch) == ImageOf(LatestCatalogue(a, collector, epoch)))
  {
    EveryHistoryIsConsistent(episodes);
    var a := History(EMPTY_LEDGER, episodes).archive;
    assert Story(a, collector, epoch);
    if NewsFree(a, collector, epoch) { NewsFreeReplaysExactly(a, collector, epoch); }
  }

  /** A collector's epochs are one linked chain, opened by one EPOCH_STARTED, which is the first event of the
      collector, and one RESET for each later epoch; and runs never fall back to an older epoch. */
  lemma EpochsFormOneChain(episodes: seq<Episode>, collector: string)
    ensures var l := History(EMPTY_LEDGER, episodes);
            var epochs, openings := Epochs(l.book, collector), Openings(l.book, collector);
            && Chained(epochs) && Opened(epochs, openings) && StartsFirst(l.book, collector)
            && EpochsNeverGoBack(l.archive.runs)
  {
    EveryHistoryIsConsistent(episodes);
    assert ChainTold(History(EMPTY_LEDGER, episodes).book, collector);
  }

  // ---------------------------------------------------------------- the catalogue diffed against

  predicate Matches(row: RunRow, collector: string, epoch: Option<nat>) {
    row.collector == collector && row.healthy && (epoch.Some? ==> row.epoch == epoch)
  }

  /** The query finds the newest match, and nothing exactly when there is none. */
  lemma {:induction false} LastHealthyRunIsNewestMatch(runs: seq<RunRow>, collector: string, epoch: Option<nat>)
    ensures match LastHealthyRun(runs, collector, epoch)
            case Some(r) => Matches(runs[r], collector, epoch) && forall i :: r < i < |runs| ==> !Matches(runs[i], collector, epoch)
            case None => forall i :: 0 <= i < |runs| ==> !Matches(runs[i], collector, epoch)
  {
    if runs != [] { LastHealthyRunIsNewestMatch(runs[..|runs| - 1], collector, epoch); }
  }

  /** Because run epochs never go back, the newest match in the current epoch is the newest match of all,
      when that lies in the current epoch. */
  lemma NewestInTheCurrentEpoch(b: Book, runs: seq<RunRow>, collector: string, epoch: nat)
    requires forall r :: 0 <= r < |runs| ==> RunPlaced(b, runs[r])
    requires EpochsNeverGoBack(runs)
    requires CurrentEpoch(b.epochs, collector).Some? && CurrentEpoch(b.epochs, collector).value.epochId == epoch
    ensures LastHealthyRun(runs, collector, Some(epoch)) ==
            match LastHealthyRun(runs, collector, None)
            case None => None
            case Some(r) => if runs[r].epoch == Some(epoch) then Some(r) else None
  {
    LastHealthyRunIsNewestMatch(runs, collector, None);
    LastHealthyRunIsNewestMatch(runs, collector, Some(epoch));
    var mine := LastHealthyRun(runs, collector, Some(epoch));
    if mine.Some? {
      assert Matches(runs[mine.value], collector, None);
      LaterRunIsOfTheCurrentEpoch(b, runs, mine.value, LastHealthyRun(runs, collector, None).value, epoch);
    }
  }

  lemma LaterRunIsOfTheCurrentEpoch(b: Book, runs: seq<RunRow>, i: nat, j: nat, epoch: nat)
    requires i <= j < |runs| && runs[i].collector == runs[j].collector && runs[i].epoch == Some(epoch)
    requires RunPlaced(b, runs[j]) && EpochsNeverGoBack(runs)
    requires CurrentEpoch(b.epochs, runs[j].collector).Some?
    requires CurrentEpoch(b.epochs, runs[j].collector).value.epochId == epoch
    ensures runs[j].epoch == Some(epoch)
  {
  }

  /** The catalogue a run is diffed against is the collector's globally last healthy one when that one lies
      in the active epoch, and the empty one otherwise; in particular a material that comes back (A, B, A)
      does not bring its old catalogue back. */
  lemma DiffedAgainstTheLastHealthyCatalogue(episodes: seq<Episode>, run: RunInput)
    ensures var l := History(EMPTY_LEDGER, episodes);
            var o := Open(l, run);
            match LastHealthyRun(l.archive.runs, run.collector.name, None)
            case None => o.previous == map[] && o.previousCount == None
            case Some(r) =>
              if l.archive.runs[r].epoch == Some(o.epoch.epochId)
              then o.previous == CatalogueAt(l.archive, r) && o.previousCount == Some(|CatalogueAt(l.archive, r)|)
              else o.previous == map[] && o.previousCount == None
  {
    EveryHistoryIsConsistent(episodes);
    var l := History(EMPTY_LEDGER, episodes);
    var o := Open(l, run);
    OpenIsConsistent(l, run);
    assert o.ledger.archive == l.archive;
    NewestInTheCurrentEpoch(o.ledger.book, l.archive.runs, run.collector.name, o.epoch.epochId);
  }

  // ---------------------------------------------------------------- terminals and the gate

  predicate TerminalFor(e: EventRow, collector: string, execution: nat) {
    e.kind == Terminal && e.collector == collector && e.execution == execution
  }

  /** Event `i` is the one terminal of the execution. */
  ghost predicate OnlyVerdict(events: seq<EventRow>, i: nat, collector: string, execution: nat) {
    && i < |events| && TerminalFor(events[i], collector, execution)
    && forall j :: 0 <= j < |events| && TerminalFor(events[j], collector, execution) ==> j == i
  }

  /** After a run that reaches its end, its execution has one terminal, and it is the first verdict the run
      recorded: healthy exactly when the checks passed and both the save and the terminal were written, under
      the run's own trigger, epoch and material.  A failing health write adds an unhealthy run row and leaves
      that verdict alone. */
  lemma FirstVerdictStays(episodes: seq<Episode>, run: RunInput) returns (i: nat)
    ensures var l := History(EMPTY_LEDGER, episodes);
            var o, events := Open(l, run), Last(RunStates(l, run)).book.events;
            && OnlyVerdict(events, i, run.collector.name, o.execution)
            && (events[i].healthy == Some(true) <==>
                  Judge(run, o.previousCount).Ok? && !run.saveFails && !run.terminalFails)
            && events[i].trigger == run.provenance.trigger && events[i].epochId == o.epoch.epochId
            && events[i].at == run.finishedAt && events[i].components == Parsed(events[i].material)
            && var m := events[i].material;
               && m.appVersion == run.provenance.appVersion && m.configFingerprint == run.provenance.configFingerprint
               && m.gitRevision == run.provenance.gitRevision && m.scope == run.scope && m.schemaVersion == 4
  {
    EveryHistoryIsConsistent(episodes);
    var l := History(EMPTY_LEDGER, episodes);
    var o := Open(l, run);
    var before := o.ledger.book.events;
    i := |before|;
    var row := TerminalRow(run.collector.name, o.execution, o.epoch.epochId, MaterialOf(run), run.provenance.trigger,
                           Judge(run, o.previousCount).Ok? && !run.saveFails && !run.terminalFails, run.finishedAt);
    TerminalsOfARun(l, run, row);
    NoTerminalYet(l, run);
    forall j | 0 <= j < |before| ensures !TerminalFor((before + [row])[j], run.collector.name, o.execution) {
      assert (before + [row])[j] == before[j];
    }
  }

  lemma NoTerminalYet(l: Ledger, run: RunInput)
    requires Consistent(l)
    ensures !HasTerminal(Open(l, run).ledger.book.events, run.collector.name, Open(l, run).execution)
  {
    var events := Open(l, run).ledger.book.events;
    forall i | 0 <= i < |events| ensures events[i].kind != Terminal || events[i].execution != l.drawn {
      if i < |l.book.events| { assert events[i] == l.book.events[i]; }
    }
  }

  lemma RecordTwice(b: Book, first: EventRow, second: EventRow)
    requires !HasTerminal(b.events, first.collector, first.execution) && first.kind == Terminal
    requires second.collector == first.collector && second.execution == first.execution
    ensures RecordTerminal(RecordTerminal(b, first), second) == RecordTerminal(b, first) == b.(events := b.events + [first])
  {
    var b' := RecordTerminal(b, first);
    assert b'.events[|b.events|] == first;
  }

  lemma TerminalsOfARun(l: Ledger, run: RunInput, row: EventRow)
    requires Consistent(l)
    requires var o := Open(l, run);
             row == TerminalRow(run.collector.name, o.execution, o.epoch.epochId, MaterialOf(run), run.provenance.trigger,
                                Judge(run, o.previousCount).Ok? && !run.saveFails && !run.terminalFails, run.finishedAt)
    ensures Last(RunStates(l, run)).book.events == Open(l, run).ledger.book.events + [row]
  {
    NoTerminalYet(l, run);
    var o := Open(l, run);
    var late := TerminalRow(run.collector.name, o.execution, o.epoch.epochId, MaterialOf(run), run.provenance.trigger,
                            false, run.finishedAt);
    RecordTwice(o.ledger.book, row, late);
  }

  /** The gate of a store written by runs is open exactly when the active epoch's material is trustworthy
      and its latest terminal is healthy with a known trigger (and the caller's epoch and material, when
      given, are the active ones); it can never report contradicting or unreadable material. */
  lemma GateReadsTheLatestTerminal(episodes: seq<Episode>, collector: string, epochId: Option<nat>, material: Option<Material>)
    ensures var b := History(EMPTY_LEDGER, episodes).book;
            var gate, active := QualificationGate(b, collector, epochId, material), CurrentEpoch(b.epochs, collector);
            && gate.reason != TerminalMaterialIdentityMismatch && gate.reason != MalformedMaterialIdentity
            && (gate.eligible <==>
                && active.Some?
                && (epochId == None || epochId == Some(active.value.epochId))
                && (material == None || material == Some(active.value.material))
                && Trustworthy(active.value.material)
                && var t := LatestTerminal(b.events, collector, active.value.epochId);
                   t.Some? && t.value.healthy == Some(true) && t.value.trigger != Unknown)
  {
    EveryHistoryIsConsistent(episodes);
    var l := History(EMPTY_LEDGER, episodes);
    GateIsExact(l.book, l.drawn, collector, epochId, material);
  }

  // ---------------------------------------------------------------- how fast an epoch may shrink

  function Counts(runs: seq<RunRow>, collector: string, epoch: nat): seq<nat> {
    var ids := HealthyRuns(runs, collector, epoch);
    seq(|ids|, k requires 0 <= k < |ids| => runs[ids[k]].observationCount)
  }

  /** The collector whose counts are followed, and the failure ratio its runs are judged by. */
  datatype Followed = Followed(collector: string, failure: Ratio)

  ghost predicate Decaying(l: Ledger, f: Followed) {
    forall e: nat :: ShrinksSlowly(Counts(l.archive.runs, f.collector, e), f.failure)
  }

  predicate JudgedBy(run: RunInput, f: Followed) {
    run.collector.name == f.collector ==> run.config.failure == f.failure
  }

  lemma CountsAfter(runs: seq<RunRow>, row: RunRow, collector: string, epoch: nat)
    ensures Counts(runs + [row], collector, epoch) ==
            Counts(runs, collector, epoch) + (if HealthyIn(row, collector, epoch) then [row.observationCount] else [])
  {
    HealthyRunsAfter(runs, row, collector, epoch);
  }

  lemma FailedRunKeepsDecay(l: Ledger, row: RunRow, f: Followed)
    requires Decaying(l, f) && !row.healthy
    ensures Decaying(WithRun(l, row, [], []), f)
  {
    forall e: nat ensures ShrinksSlowly(Counts(l.archive.runs + [row], f.collector, e), f.failure) {
      CountsAfter(l.archive.runs, row, f.collector, e);
      assert ShrinksSlowly(Counts(l.archive.runs, f.collector, e), f.failure);
    }
  }

  /** The count a run is judged against is the stored count of the epoch's newest healthy run. */
  lemma JudgedAgainstTheNewestCount(a: Archive, collector: string, epoch: nat)
    requires |a.observations| == |a.runs| && forall r :: 0 <= r < |a.runs| ==> SavedRun(a, r)
    ensures var counts := Counts(a.runs, collector, epoch);
            counts != [] ==> LastHealthyRun(a.runs, collector, Some(epoch)).Some?
                             && |LastHealthyCatalogue(a, collector, Some(epoch))| == counts[|counts| - 1]
  {
    LastHealthyIsNewest(a.runs, collector, epoch);
    var ids := HealthyRuns(a.runs, collector, epoch);
    if ids != [] {
      var last := ids[|ids| - 1];
      assert LastHealthyRun(a.runs, collector, Some(epoch)) == Some(last);
      SavedCount(a, last);
    }
  }

  lemma SavedCount(a: Archive, r: nat)
    requires r < |a.runs| == |a.observations| && SavedRun(a, r) && a.runs[r].healthy
    ensures |CatalogueOf(a.observations[r])| == a.runs[r].observationCount
  {
    CatalogueSize(a.observations[r]);
  }

  lemma AppendDecays(counts: seq<nat>, n: nat, failure: Ratio)
    requires ShrinksSlowly(counts, failure) && (counts != [] ==> !Below(n, counts[|counts| - 1], failure))
    ensures ShrinksSlowly(counts + [n], failure)
  {
    var after := counts + [n];
    forall k | 0 < k < |after| ensures !Below(after[k], after[k - 1], failure) {
      if k < |counts| { assert !Below(counts[k], counts[k - 1], failure); }
    }
  }

  lemma JudgedSlowEnough(run: RunInput, previousCount: Option<nat>, warning: bool)
    requires Judge(run, previousCount) == Ok(warning) && previousCount.Some?
    ensures !Below(Attempted(run), previousCount.value, run.config.failure)
  {
    AcceptedStep(Attempted(run), previousCount, run.collector.zeroIsFailure && run.config.zeroIsFailure,
                 run.config.warning, run.config.failure);
  }

  lemma OpenedOnTheNewestCount(l: Ledger, run: RunInput)
    requires Shaped(l.archive) && forall r :: 0 <= r < |l.archive.runs| ==> SavedRun(l.archive, r)
    ensures var o := Open(l, run);
            var counts := Counts(l.archive.runs, run.collector.name, o.epoch.epochId);
            counts != [] ==> o.previousCount == Some(counts[|counts| - 1])
  {
    JudgedAgainstTheNewestCount(l.archive, run.collector.name, Open(l, run).epoch.epochId);
  }

  lemma JudgedRunDecays(counts: seq<nat>, run: RunInput, previousCount: Option<nat>, warning: bool)
    requires ShrinksSlowly(counts, run.config.failure) && Judge(run, previousCount) == Ok(warning)
    requires counts != [] ==> previousCount == Some(counts[|counts| - 1])
    ensures ShrinksSlowly(counts + [Attempted(run)], run.config.failure)
  {
    if counts != [] { JudgedSlowEnough(run, previousCount, warning); }
    AppendDecays(counts, Attempted(run), run.config.failure);
  }

  lemma HealthyRunDecays(runs: seq<RunRow>, row: RunRow, run: RunInput, epoch: nat, previousCount: Option<nat>, warning: bool,
                         f: Followed, e: nat)
    requires row.collector == run.collector.name && row.epoch == Some(epoch) && row.observationCount == Attempted(run)
    requires var counts := Counts(runs, run.collector.name, epoch);
             counts != [] ==> previousCount == Some(counts[|counts| - 1])
    requires ShrinksSlowly(Counts(runs, f.collector, e), f.failure) && JudgedBy(run, f) && Judge(run, previousCount) == Ok(warning)
    ensures ShrinksSlowly(Counts(runs + [row], f.collector, e), f.failure)
  {
    CountsAfter(runs, row, f.collector, e);
    if HealthyIn(row, f.collector, e) {
      JudgedRunDecays(Counts(runs, f.collector, e), run, previousCount, warning);
    }
  }

  lemma HealthyRunKeepsDecay(l: Ledger, run: RunInput, warning: bool, f: Followed)
    requires Consistent(l) && Decaying(l, f) && JudgedBy(run, f) && Judge(run, Open(l, run).previousCount) == Ok(warning)
    ensures var o := Open(l, run);
            Decaying(WithRun(o.ledger, HealthyRow(run, o, warning), run.collected.observations, Found(run, o)), f)
  {
    var o := Open(l, run);
    var row := HealthyRow(run, o, warning);
    OpenedOnTheNewestCount(l, run);
    forall e: nat ensures ShrinksSlowly(Counts(l.archive.runs + [row], f.collector, e), f.failure) {
      HealthyRunDecays(l.archive.runs, row, run, o.epoch.epochId, o.previousCount, warning, f, e);
    }
  }

  lemma FailedStatesKeepDecay(l: Ledger, run: RunInput, o: Opening, error: RunError, f: Followed)
    requires Decaying(l, f)
    ensures AllDecaying(FailedStates(l, run, o, error), f)
  {
    FailedRunKeepsDecay(l, FailedRow(run, o, error), f);
  }

  ghost predicate AllDecaying(states: seq<Ledger>, f: Followed) {
    forall i :: 0 <= i < |states| ==> Decaying(states[i], f)
  }

  lemma ConcludedStatesKeepDecay(l: Ledger, run: RunInput, o: Opening, warning: bool, f: Followed)
    requires Decaying(l, f)
    ensures AllDecaying(ConcludedStates(l, run, o, warning), f)
  {
    FailedStatesKeepDecay(l, run, o, StoreFailed, f);
    FailedStatesKeepDecay(WithTerminal(l, run, o, true), run, o, StoreFailed, f);
  }

  lemma HealthyStatesKeepDecay(l: Ledger, run: RunInput, warning: bool, f: Followed)
    requires Consistent(l) && Decaying(l, f) && JudgedBy(run, f) && Judge(run, Open(l, run).previousCount) == Ok(warning)
    ensures AllDecaying(HealthyStates(run, Open(l, run), warning), f)
  {
    var o := Open(l, run);
    HealthyRunKeepsDecay(l, run, warning, f);
    FailedStatesKeepDecay(o.ledger, run, o, StoreFailed, f);
    ConcludedStatesKeepDecay(
      WithRun(o.ledger, HealthyRow(run, o, warning), run.collected.observations, Found(run, o)), run, o, warning, f);
  }

  lemma PrefixDecays(first: Ledger, rest: seq<Ledger>, f: Followed)
    requires Decaying(first, f) && AllDecaying(rest, f)
    ensures AllDecaying([first] + rest, f)
  {
  }

  lemma RunStatesKeepDecay(l: Ledger, run: RunInput, f: Followed)
    requires Consistent(l) && Decaying(l, f) && JudgedBy(run, f)
    ensures AllDecaying(RunStates(l, run), f)
  {
    var o := Open(l, run);
    assert o.ledger.archive == l.archive;
    match Judge(run, o.previousCount)
    case Err(error) =>
      FailedStatesKeepDecay(o.ledger, run, o, error, f);
      PrefixDecays(o.ledger, FailedStates(o.ledger, run, o, error), f);
    case Ok(warning) =>
      HealthyStatesKeepDecay(l, run, warning, f);
      PrefixDecays(o.ledger, HealthyStates(run, o, warning), f);
  }

  lemma RunKeepsDecay(l: Ledger, run: RunInput, lives: nat, f: Followed)
    requires Consistent(l) && Decaying(l, f) && JudgedBy(run, f)
    ensures Decaying(RunFor(l, run, lives), f)
  {
    RunStatesKeepDecay(l, run, f);
  }

  lemma {:induction false} HistoryKeepsDecay(l: Ledger, episodes: seq<Episode>, f: Followed)
    requires Consistent(l) && Decaying(l, f)
    requires forall i :: 0 <= i < |episodes| ==> JudgedBy(episodes[i].run, f)
    ensures Decaying(History(l, episodes), f)
    decreases |episodes|
  {
    if episodes != [] {
      RunKeepsDecay(l, episodes[0].run, episodes[0].lives, f);
      RunStatesAreConsistent(l, episodes[0].run);
      HistoryKeepsDecay(RunFor(l, episodes[0].run, episodes[0].lives), episodes[1..], f);
    }
  }

  /** When a collector's runs are judged by failure ratio num/den, the k-th healthy run of any of its epochs
      satisfies n_0 * num^k <= n_k * den^k, whatever failed in between, however empty catalogues are judged,
      and whatever ratios other collectors use. */
  lemma HealthyCountsAreBounded(episodes: seq<Episode>, failure: Ratio, collector: string, epoch: nat, k: nat)
    requires forall i :: 0 <= i < |episodes| && episodes[i].run.collector.name == collector ==>
               episodes[i].run.config.failure == failure
    requires k < |Counts(History(EMPTY_LEDGER, episodes).archive.runs, collector, epoch)|
    ensures var counts := Counts(History(EMPTY_LEDGER, episodes).archive.runs, collector, epoch);
            counts[0] * Pow(failure.num, k) <= counts[k] * Pow(failure.den, k)
  {
    EmptyIsConsistent();
    HistoryKeepsDecay(EMPTY_LEDGER, episodes, Followed(collector, failure));
    ShrinkIsBounded(Counts(History(EMPTY_LEDGER, episodes).archive.runs, collector, epoch), failure, k);
  }
}
