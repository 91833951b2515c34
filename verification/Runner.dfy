/**
 The runner: it sequences the store's transactions for one collector and falls into the except path when
 one of them raises.  Models Runner of core/runner.py.
 */
module Runner {
  import opened Common
  import opened Models
  import opened Health
  import opened Diff
  import opened Qualification
  import opened RunArchive
  import opened Outbox
  import opened Store
  import Newsroom
  import L = Ledger
  import RunLaws

  datatype RunOutcome = RunOutcome(healthy: bool, baseline: bool, observationCount: nat, discoveryCount: nat, warning: bool,
                                   error: Option<RunError>)

  function FailedOutcome(run: L.RunInput, error: RunError): RunOutcome {
    RunOutcome(false, false, L.Attempted(run), 0, false, Some(error))
  }

  function HealthyOutcome(run: L.RunInput, o: L.Opening, warning: bool): RunOutcome
    requires run.collected.Returned?
  {
    RunOutcome(true, o.previousCount.None?, L.Attempted(run), |L.Found(run, o)|, warning, None)
  }

  /** What a run that does not escape reports. */
  function OutcomeOf(run: L.RunInput, o: L.Opening): RunOutcome {
    match L.Judge(run, o.previousCount)
    case Err(error) => FailedOutcome(run, error)
    case Ok(warning) =>
      if run.saveFails || run.terminalFails || run.healthFails then FailedOutcome(run, StoreFailed)
      else HealthyOutcome(run, o, warning)
  }

  class Runner {
    const store: SQLiteStore
    const factory: bool
    const allowlist: set<string>

    constructor (store: SQLiteStore, factory: bool, allowlist: set<string>)
      ensures this.store == store && this.factory == factory && this.allowlist == allowlist
    {
      this.store, this.factory, this.allowlist := store, factory, allowlist;
    }

    /** May this collector notify? */
    predicate Intends(collector: L.Collector) {
      Newsroom.Notifies(Newsroom.Wiring(factory, collector.tier, collector.name in allowlist))
    }

    /** The except path: three writes, of which the first `writes` go through.  None stands for the exception of
        the next one. */
    method Fail(run: L.RunInput, ghost o: L.Opening, execution: nat, epochId: nat, previousCount: Option<nat>, error: RunError,
                writes: nat) returns (outcome: Option<RunOutcome>)
      requires |store.observations| == |store.runs|
      requires o.execution == execution && o.epoch.epochId == epochId && o.previousCount == previousCount
      modifies store
      ensures |store.observations| == |store.runs|
      ensures store.Ledger() ==
              L.StateAfter(old(store.Ledger()), L.FailedStates(old(store.Ledger()), run, o, error), L.Reach(3, true, writes))
      ensures store.notifications == old(store.notifications) && store.discoveries == old(store.discoveries)
      ensures outcome == if writes < 3 then None else Some(FailedOutcome(run, error))
    {
      var name, trigger, material := run.collector.name, run.provenance.trigger, L.MaterialOf(run);
      var row := RunRow(name, run.startedAt, run.finishedAt, false, 0, false, Some(error), 0, Some(execution), trigger,
                        Some(epochId), Some(material));
      var saved := store.SaveRun(row, [], [], false, writes < 1);
      if !saved { return None; }
      var recorded := store.RecordQualificationTerminal(
        TerminalRow(name, execution, epochId, material, trigger, false, run.finishedAt), writes < 2);
      if !recorded { return None; }
      var noted := store.SaveHealth(
        name, L.HealthRecord(false, L.Attempted(run), previousCount, false, Some(error), run.finishedAt), writes < 3);
      outcome := if noted then Some(FailedOutcome(run, error)) else None;
    }

    /** The try block's last two transactions. */
    method Conclude(run: L.RunInput, ghost o: L.Opening, execution: nat, epochId: nat, previousCount: Option<nat>,
                    discoveryCount: nat, warning: bool, writes: nat) returns (outcome: Option<RunOutcome>)
      requires |store.observations| == |store.runs| && run.collected.Returned? && discoveryCount == |L.Found(run, o)|
      requires o.execution == execution && o.epoch.epochId == epochId && o.previousCount == previousCount
      modifies store
      ensures |store.observations| == |store.runs|
      ensures var states := L.ConcludedStates(old(store.Ledger()), run, o, warning);
              store.Ledger() ==
              L.StateAfter(old(store.Ledger()), states, L.Reach(|states|, run.terminalFails || run.healthFails, writes))
      ensures store.notifications == old(store.notifications) && store.discoveries == old(store.discoveries)
      ensures outcome == Concluded(run, o, warning, writes, run.terminalFails || run.healthFails)
    {
      var name, trigger, material := run.collector.name, run.provenance.trigger, L.MaterialOf(run);
      var recorded := store.RecordQualificationTerminal(
        TerminalRow(name, execution, epochId, material, trigger, true, run.finishedAt), run.terminalFails);
      if !recorded {
        outcome := Fail(run, o, execution, epochId, previousCount, StoreFailed, writes);
        return;
      }
      var noted := store.SaveHealth(
        name, L.HealthRecord(true, |run.collected.observations|, previousCount, warning, None, run.finishedAt), run.healthFails);
      if !noted {
        ghost var l := store.Ledger();
        outcome := Fail(run, o, execution, epochId, previousCount, StoreFailed, writes);
        L.StateAfterPrefix(old(store.Ledger()), l, L.FailedStates(l, run, o, StoreFailed), L.Reach(3, true, writes));
        return;
      }
      outcome := Some(RunOutcome(true, previousCount.None?, |run.collected.observations|, discoveryCount, warning, None));
    }

    /** What is reported once the catalogue has been accepted. */
    static function Concluded(run: L.RunInput, o: L.Opening, warning: bool, writes: nat, fails: bool): Option<RunOutcome>
      requires run.collected.Returned?
    {
      if !fails then Some(HealthyOutcome(run, o, warning))
      else if writes < 3 then None
      else Some(FailedOutcome(run, StoreFailed))
    }

    /** The diff and the one transaction that stores the run with what it found. */
    method SaveHealthy(run: L.RunInput, ghost o: L.Opening, execution: nat, epochId: nat, previous: Catalogue,
                       previousCount: Option<nat>, warning: bool) returns (saved: bool, discoveryCount: nat)
      requires |store.observations| == |store.runs| && run.collected.Returned? && UniqueIdentities(run.collected.observations)
      requires o.execution == execution && o.epoch.epochId == epochId && o.previous == previous && o.previousCount == previousCount
      modifies store`runs, store`observations, store`discoveries, store`notifications
      ensures |store.observations| == |store.runs| && saved == !run.saveFails && discoveryCount == |L.Found(run, o)|
      ensures store.Ledger() == if saved then L.WithRun(old(store.Ledger()), L.HealthyRow(run, o, warning),
                                                        run.collected.observations, L.Found(run, o))
                                else old(store.Ledger())
      ensures Notified(old(store.notifications), store.notifications, |old(store.discoveries)|, run.collector)
    {
      var obs := run.collected.observations;
      var found: seq<Discovery> := [];
      if previousCount.Some? {
        found := DiffCatalogues(previous, CatalogueOf(obs), run.finishedAt);
      }
      discoveryCount := |found|;
      var row := RunRow(run.collector.name, run.startedAt, run.finishedAt, true, |obs|, warning, None, |found|, Some(execution),
                        run.provenance.trigger, Some(epochId), Some(L.MaterialOf(run)));
      saved := store.SaveRun(row, obs, found, Intends(run.collector), run.saveFails);
    }

    /** The try block once the catalogue has been accepted. */
    method Commit(run: L.RunInput, ghost o: L.Opening, execution: nat, epochId: nat, previous: Catalogue,
                  previousCount: Option<nat>, warning: bool, writes: nat) returns (outcome: Option<RunOutcome>)
      requires |store.observations| == |store.runs| && run.collected.Returned? && store.Ledger() == o.ledger
      requires UniqueIdentities(run.collected.observations)
      requires o.execution == execution && o.epoch.epochId == epochId && o.previous == previous && o.previousCount == previousCount
      modifies store
      ensures |store.observations| == |store.runs|
      ensures var states := L.HealthyStates(run, o, warning);
              store.Ledger() == L.StateAfter(o.ledger, states, L.Reach(|states|, Troubled(run), writes))
      ensures Notified(old(store.notifications), store.notifications, |old(store.discoveries)|, run.collector)
      ensures outcome == Concluded(run, o, warning, writes, Troubled(run))
    {
      var saved, discoveryCount := SaveHealthy(run, o, execution, epochId, previous, previousCount, warning);
      if !saved {
        outcome := Fail(run, o, execution, epochId, previousCount, StoreFailed, writes);
        return;
      }
      ghost var l := store.Ledger();
      outcome := Conclude(run, o, execution, epochId, previousCount, discoveryCount, warning, writes);
      ghost var states := L.ConcludedStates(l, run, o, warning);
      L.StateAfterPrefix(o.ledger, l, states, L.Reach(|states|, run.terminalFails || run.healthFails, writes));
    }

    static predicate Troubled(run: L.RunInput) {
      run.saveFails || run.terminalFails || run.healthFails
    }

    /** The outbox holds a row for each eligible discovery added since there were `known` of them. */
    ghost predicate Notified(before: seq<Row>, after: seq<Row>, known: nat, collector: L.Collector)
      reads store
    {
      && known <= |store.discoveries|
      && after == if Intends(collector) then Newsroom.Queued(before, store.discoveries, known, |store.discoveries|) else before
    }

    /** Draw the execution and settle the epoch. */
    method Begin(run: L.RunInput) returns (execution: nat, epoch: EpochRow)
      modifies store`drawn, store`epochs, store`events
      ensures var o := L.Open(old(store.Ledger()), run);
              store.Ledger() == o.ledger && o.execution == execution && o.epoch == epoch
    {
      execution := store.DrawUuid();
      epoch := store.PrepareQualification(run.collector.name, execution, L.MaterialOf(run), run.provenance.trigger, run.startedAt);
    }

    /** Load what the epoch last saw. */
    method Recall(run: L.RunInput, epochId: nat) returns (previous: Catalogue, previousCount: Option<nat>)
      ensures previous == LastHealthyCatalogue(store.Ledger().archive, run.collector.name, Some(epochId))
      ensures previousCount == if LastHealthyRun(store.runs, run.collector.name, Some(epochId)).Some? then Some(|previous|) else None
    {
      previous := LastHealthyCatalogue(Archive(store.runs, store.observations, store.discoveries), run.collector.name, Some(epochId));
      previousCount := if LastHealthyRun(store.runs, run.collector.name, Some(epochId)).Some? then Some(|previous|) else None;
    }

    /** The run from its prepared epoch on. */
    method Attempt(run: L.RunInput, ghost o: L.Opening, execution: nat, epochId: nat, previous: Catalogue,
                   previousCount: Option<nat>, writes: nat) returns (outcome: Option<RunOutcome>)
      requires |store.observations| == |store.runs| && store.Ledger() == o.ledger
      requires o.execution == execution && o.epoch.epochId == epochId && o.previous == previous && o.previousCount == previousCount
      modifies store
      ensures |store.observations| == |store.runs| && (L.EntersExcept(run, o) ==> 3 <= |L.JudgedStates(run, o)|)
      ensures var states := L.JudgedStates(run, o);
              store.Ledger() == L.StateAfter(o.ledger, states, L.Reach(|states|, L.EntersExcept(run, o), writes))
      ensures Notified(old(store.notifications), store.notifications, |old(store.discoveries)|, run.collector)
      ensures outcome == if L.EntersExcept(run, o) && writes < 3 then None else Some(OutcomeOf(run, o))
    {
      L.ExceptPathComesLast(run, o);
      match L.Judge(run, previousCount) {
        case Err(error) =>
          outcome := Fail(run, o, execution, epochId, previousCount, error, writes);
        case Ok(warning) =>
          outcome := Commit(run, o, execution, epochId, previous, previousCount, warning, writes);
      }
    }

    /** None stands for an exception that leaves the runner. */
    method RunOne(run: L.RunInput, x: L.Outside) returns (outcome: Option<RunOutcome>)
      requires |store.observations| == |store.runs|
      modifies store
      ensures |store.observations| == |store.runs|
      ensures store.Ledger() == L.RunFor(old(store.Ledger()), run, L.Lives(old(store.Ledger()), run, x))
      ensures Notified(old(store.notifications), store.notifications, |old(store.discoveries)|, run.collector)
      ensures !factory || run.collector.tier != Production || run.collector.name !in allowlist ==>
                store.notifications == old(store.notifications)
      ensures factory && run.collector.tier == Production && run.collector.name in allowlist ==>
                && |old(store.discoveries)| <= |store.discoveries|
                && store.notifications == Newsroom.Queued(old(store.notifications), store.discoveries, |old(store.discoveries)|,
                                                          |store.discoveries|)
      ensures outcome == if L.Escapes(old(store.Ledger()), run, x) then None
                         else Some(OutcomeOf(run, L.Open(old(store.Ledger()), run)))
    {
      if !x.prepares { return None; }
      ghost var l := store.Ledger();
      ghost var o := L.Open(l, run);
      var execution, epoch := Begin(run);
      if !x.recalls { return None; }
      var previous, previousCount := Recall(run, epoch.epochId);
      outcome := Attempt(run, o, execution, epoch.epochId, previous, previousCount, x.exceptWrites);
      L.LivesOn(l, run, x);
    }

    /** One run for each collector selected, in order, whatever becomes of the ones before, until an exception
        leaves the runner: that ends the cycle without a result. */
    method Run(trials: seq<Trial>) returns (outcomes: Option<seq<RunOutcome>>)
      requires |store.observations| == |store.runs|
      modifies store
      ensures |store.observations| == |store.runs|
      ensures store.Ledger() == L.History(old(store.Ledger()), Cycle(old(store.Ledger()), trials))
      ensures outcomes == if Finishes(old(store.Ledger()), trials) then Some(Outcomes(old(store.Ledger()), trials)) else None
    {
      ghost var before := store.Ledger();
      var reported: seq<RunOutcome> := [];
      var i := 0;
      var escaped := false;
      assert trials[0..] == trials;
      while i < |trials| && !escaped
        invariant i <= |trials| && |store.observations| == |store.runs|
        invariant if escaped then Ended(before, trials, store.Ledger())
                  else Continues(before, trials, store.Ledger(), trials[i..], reported)
      {
        NextOfCycle(before, trials, store.Ledger(), trials[i..], reported);
        assert trials[i..][1..] == trials[i + 1..];
        var outcome := RunOne(trials[i].run, trials[i].outside);
        i := i + 1;
        if outcome.None? {
          escaped := true;
        } else {
          reported := reported + [outcome.value];
        }
      }
      outcomes := if escaped then None else Some(reported);
      if !escaped { EndOfCycle(before, trials, store.Ledger(), reported); }
    }
  }

  /** The report of a run that does not escape: healthy exactly when every check passed and every write went
      through, and then a baseline exactly when its epoch had no healthy run before. */
  lemma OutcomeIsExact(l: L.Ledger, run: L.RunInput)
    requires L.Consistent(l)
    ensures var o := L.Open(l, run);
            var outcome, newest := OutcomeOf(run, o), RunLaws.Newest(l, run.collector.name, o.epoch.epochId);
            && (outcome.healthy <==> RunLaws.Succeeds(run, newest) && !run.healthFails)
            && outcome.observationCount == RunLaws.Seen(run)
            && (outcome.healthy ==>
                  && outcome.error == None && (outcome.baseline <==> newest == None)
                  && (outcome.warning <==> RunLaws.Shrunk(run, newest, run.config.warning))
                  && outcome.discoveryCount == |L.Found(run, o)|)
            && (!outcome.healthy ==>
                  && !outcome.baseline && !outcome.warning && outcome.discoveryCount == 0
                  && outcome.error.Some? && RunLaws.ErrorTells(outcome.error.value, run, newest))
  {
    RunLaws.JudgedAgainstTheNewest(l, run);
    RunLaws.JudgeIsExact(run, L.Open(l, run).previousCount);
  }

  datatype Trial = Trial(run: L.RunInput, outside: L.Outside)

  function AfterTrial(l: L.Ledger, t: Trial): L.Ledger {
    L.RunFor(l, t.run, L.Lives(l, t.run, t.outside))
  }

  /** The cycle as a history: the runs up to and including the first whose exception leaves the runner. */
  function Cycle(l: L.Ledger, trials: seq<Trial>): seq<L.Episode>
    decreases |trials|
  {
    if trials == [] then []
    else
      var t := trials[0];
      [L.Episode(t.run, L.Lives(l, t.run, t.outside))] +
      if L.Escapes(l, t.run, t.outside) then [] else Cycle(AfterTrial(l, t), trials[1..])
  }

  predicate Finishes(l: L.Ledger, trials: seq<Trial>)
    decreases |trials|
  {
    trials != [] ==> !L.Escapes(l, trials[0].run, trials[0].outside) && Finishes(AfterTrial(l, trials[0]), trials[1..])
  }

  function Outcomes(l: L.Ledger, trials: seq<Trial>): seq<RunOutcome>
    decreases |trials|
  {
    if trials == [] then []
    else [OutcomeOf(trials[0].run, L.Open(l, trials[0].run))] + Outcomes(AfterTrial(l, trials[0]), trials[1..])
  }

  /** A cycle over `trials` from `before` has got to `now`, with `rest` to run. */
  ghost predicate Continues(before: L.Ledger, trials: seq<Trial>, now: L.Ledger, rest: seq<Trial>, reported: seq<RunOutcome>) {
    && L.History(before, Cycle(before, trials)) == L.History(now, Cycle(now, rest))
    && Finishes(before, trials) == Finishes(now, rest)
    && Outcomes(before, trials) == reported + Outcomes(now, rest)
  }

  /** An exception has left the runner. */
  ghost predicate Ended(before: L.Ledger, trials: seq<Trial>, now: L.Ledger) {
    L.History(before, Cycle(before, trials)) == now && !Finishes(before, trials)
  }

  lemma NextTrial(now: L.Ledger, rest: seq<Trial>)
    requires rest != []
    ensures var t, next := rest[0], AfterTrial(now, rest[0]);
            if L.Escapes(now, t.run, t.outside) then Ended(now, rest, next)
            else Continues(now, rest, next, rest[1..], [OutcomeOf(t.run, L.Open(now, t.run))])
  {
    var t, cycle := rest[0], Cycle(now, rest);
    assert cycle[0] == L.Episode(t.run, L.Lives(now, t.run, t.outside));
    assert cycle[1..] == if L.Escapes(now, t.run, t.outside) then [] else Cycle(AfterTrial(now, t), rest[1..]);
  }

  lemma ContinuesOn(before: L.Ledger, trials: seq<Trial>, now: L.Ledger, rest: seq<Trial>, reported: seq<RunOutcome>,
                    next: L.Ledger, later: seq<Trial>, more: seq<RunOutcome>)
    requires Continues(before, trials, now, rest, reported) && Continues(now, rest, next, later, more)
    ensures Continues(before, trials, next, later, reported + more)
  {
  }

  lemma EndsThere(before: L.Ledger, trials: seq<Trial>, now: L.Ledger, rest: seq<Trial>, reported: seq<RunOutcome>, next: L.Ledger)
    requires Continues(before, trials, now, rest, reported) && Ended(now, rest, next)
    ensures Ended(before, trials, next)
  {
  }

  lemma NextOfCycle(before: L.Ledger, trials: seq<Trial>, now: L.Ledger, rest: seq<Trial>, reported: seq<RunOutcome>)
    requires rest != [] && Continues(before, trials, now, rest, reported)
    ensures var t, next := rest[0], AfterTrial(now, rest[0]);
            if L.Escapes(now, t.run, t.outside) then Ended(before, trials, next)
            else Continues(before, trials, next, rest[1..], reported + [OutcomeOf(t.run, L.Open(now, t.run))])
  {
    var t, next := rest[0], AfterTrial(now, rest[0]);
    NextTrial(now, rest);
    if L.Escapes(now, t.run, t.outside) {
      EndsThere(before, trials, now, rest, reported, next);
    } else {
      ContinuesOn(before, trials, now, rest, reported, next, rest[1..], [OutcomeOf(t.run, L.Open(now, t.run))]);
    }
  }

  lemma EndOfCycle(before: L.Ledger, trials: seq<Trial>, now: L.Ledger, reported: seq<RunOutcome>)
    requires Continues(before, trials, now, [], reported)
    ensures L.History(before, Cycle(before, trials)) == now && Finishes(before, trials) && Outcomes(before, trials) == reported
  {
  }
}
