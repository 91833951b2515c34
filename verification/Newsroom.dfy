/**
 Collection and delivery over one store: runs commit discoveries together with their notification rows,
 while deliveries, requeues and policy changes interleave.  Models the intent factory of
 notifications/discord.py inside save_run of core/store.py.
 */
module Newsroom {
  import opened Common
  import opened DeliveryPolicy
  import opened Models
  import opened RunArchive
  import opened Outbox
  import opened Protocol
  import Diff
  import DeliveryHistory
  import L = Ledger
  import LedgerHistory

  /** How a run was wired: whether the runner had the intent factory, and the two gates of a collector. */
  datatype Wiring = Wiring(factory: bool, tier: CollectorTier, allowlisted: bool)

  predicate Notifies(w: Wiring) {
    w.factory && w.tier == Production && w.allowlisted
  }

  /** `wirings[r]` is how run `r` was made. */
  datatype World = World(ledger: L.Ledger, outbox: System, wirings: seq<Wiring>)

  datatype Move = Collect(run: L.RunInput, lives: nat, factory: bool, allowlist: set<string>) | Deliver(action: Action)

  predicate DeliveryEligible(level: EditorialLevel) {
    level == Critical || level == Newsworthy
  }

  function Intent(rows: seq<DiscoveryRow>, d: nat): seq<Action>
    requires d < |rows|
  {
    if DeliveryEligible(rows[d].discovery.level) then [Enqueue(d, At(rows[d].discovery.discoveredAt))] else []
  }

  /** One intent for each eligible discovery from `first` on, in the order they are inserted. */
  function Intents(rows: seq<DiscoveryRow>, first: nat, end: nat): seq<Action>
    requires first <= end <= |rows|
  {
    if first == end then [] else Intents(rows, first, end - 1) + Intent(rows, end - 1)
  }

  /** The notification rows save_run leaves when it walks the discoveries `first` to `end` with an intent. */
  function Queued(rows: seq<Row>, found: seq<DiscoveryRow>, first: nat, end: nat): seq<Row>
    requires first <= end <= |found|
  {
    if first == end then rows
    else
      var before := Queued(rows, found, first, end - 1);
      if DeliveryEligible(found[end - 1].discovery.level)
      then Put(before, NotificationFor(end - 1, At(found[end - 1].discovery.discoveredAt)))
      else before
  }

  /** What the newsroom is for, in terms of two catalogues: a product that is new, a news item that is new
      and about smartwatches, a product whose price, currency, availability or firmware changed, and a
      catalogue or support listing that is gone. */
  predicate WorthAnnouncing(previous: Catalogue, current: Catalogue, id: string) {
    if id in current && id !in previous then
      IsNews(current[id].facts) ==> current[id].facts.classificationState == Some("SMARTWATCH_RELEVANT")
    else if id in current then
      var before, after := previous[id].facts, current[id].facts;
      before.price != after.price || before.currency != after.currency || before.availability != after.availability
      || before.firmwareVersion != after.firmwareVersion
    else
      id in previous && !IsNews(previous[id].facts)
      && (previous[id].facts.sourceKind == Some(PRODUCT_CATALOGUE) || previous[id].facts.sourceKind == Some(SUPPORT))
  }

  lemma NewsAnnouncesExactly(previous: Catalogue, current: Catalogue, id: string, now: Instant)
    ensures var d := Diff.News(previous, current, id, now);
            d.Some? && DeliveryEligible(d.value.level) <==> WorthAnnouncing(previous, current, id)
  {
    if id in current && id in previous { ChangesAnnounceExactly(previous[id], current[id], now); }
  }

  lemma ChangesAnnounceExactly(before: Observation, after: Observation, now: Instant)
    ensures DeliveryEligible(Diff.Changed(before, after, now).level) <==>
              before.facts.price != after.facts.price || before.facts.currency != after.facts.currency
              || before.facts.availability != after.facts.availability
              || before.facts.firmwareVersion != after.facts.firmwareVersion
  {
  }

  function AnnouncedAbout(id: string): Discovery -> bool {
    (d: Discovery) => d.identity == id && DeliveryEligible(d.level)
  }

  /** The discoveries of a diff that pass the editorial gate: one for each of exactly those identities. */
  lemma DiffAnnouncesExactly(previous: Catalogue, current: Catalogue, id: string, now: Instant)
    requires Filed(previous) && Filed(current)
    ensures Count(Diff.CatalogueDiff(previous, current, now), AnnouncedAbout(id)) ==
            if WorthAnnouncing(previous, current, id) then 1 else 0
  {
    var ds, news := Diff.CatalogueDiff(previous, current, now), Diff.News(previous, current, id, now);
    Diff.DiffIsExact(previous, current, id, now);
    NewsAnnouncesExactly(previous, current, id, now);
    FilterTwice(ds, Diff.About(id), AnnouncedAbout(id));
    if news.Some? { FilterAppend([], news.value, AnnouncedAbout(id)); }
    assert Diff.Said(news) == [] || Diff.Said(news) == [] + [news.value];
  }

  function Repeat(w: Wiring, n: nat): seq<Wiring> {
    seq(n, _ => w)
  }

  function DoCollect(w: World, m: Move): World
    requires m.Collect?
  {
    var ledger := L.RunFor(w.ledger, m.run, m.lives);
    var wiring := Wiring(m.factory, m.run.collector.tier, m.run.collector.name in m.allowlist);
    var before, after := w.ledger.archive, ledger.archive;
    var grown := if |before.runs| <= |after.runs| then |after.runs| - |before.runs| else 0;
    World(ledger,
          if Notifies(wiring) && |before.discoveries| <= |after.discoveries|
          then w.outbox.(rows := Queued(w.outbox.rows, after.discoveries, |before.discoveries|, |after.discoveries|))
          else w.outbox,
          w.wirings + Repeat(wiring, grown))
  }

  function Advance(w: World, m: Move): World {
    match m
    case Collect(_, _, _, _) => DoCollect(w, m)
    case Deliver(a) => if a.Enqueue? then w else w.(outbox := Step(w.outbox, a))
  }

  function Life(w: World, moves: seq<Move>): World
    decreases |moves|
  {
    if moves == [] then w else Life(Advance(w, moves[0]), moves[1..])
  }

  ghost predicate Begins(w: World) {
    w.ledger == L.EMPTY_LEDGER && Initial(w.outbox) && w.wirings == []
  }

  // ---------------------------------------------------------------- the bijection

  /** Discovery `d` is one the newsroom promised to announce. */
  ghost predicate Announced(w: World, d: nat) {
    && d < |w.ledger.archive.discoveries|
    && DeliveryEligible(w.ledger.archive.discoveries[d].discovery.level)
    && w.ledger.archive.discoveries[d].run < |w.wirings|
    && Notifies(w.wirings[w.ledger.archive.discoveries[d].run])
  }

  ghost predicate RowAnnounces(w: World, row: Row) {
    match row.discoveryId
    case None => row.key.TestKey?
    case Some(d) =>
      && row.key == DiscoveryKey(d) && row.payload == DiscoveryEmbed(d) && Announced(w, d)
      && row.eventTime == At(w.ledger.archive.discoveries[d].discovery.discoveredAt)
  }

  ghost predicate HasRow(rows: seq<Row>, d: nat) {
    exists i :: 0 <= i < |rows| && rows[i].discoveryId == Some(d)
  }

  ghost predicate DistinctKeys(rows: seq<Row>) {
    forall i, j :: 0 <= i < j < |rows| ==> rows[i].key != rows[j].key
  }

  /** Rows and announced discoveries below `n` are in bijection. */
  ghost predicate Covers(w: World, rows: seq<Row>, n: nat) {
    && (forall i :: 0 <= i < |rows| ==> RowAnnounces(w, rows[i]) && (rows[i].discoveryId.Some? ==> rows[i].discoveryId.value < n))
    && DistinctKeys(rows)
    && (forall d: nat :: d < n && Announced(w, d) ==> HasRow(rows, d))
  }

  ghost predicate Bijective(w: World) {
    && |w.wirings| == |w.ledger.archive.runs|
    && Shaped(w.ledger.archive)
    && Covers(w, w.outbox.rows, |w.ledger.archive.discoveries|)
  }

  // ---------------------------------------------------------------- deliveries

  /** Delivery never adds, drops or renames a discovery row. */
  lemma DeliveryKeepsNames(s: System, a: Action)
    requires !a.Enqueue?
    ensures Grows(s.rows, Step(s, a).rows)
    ensures forall i :: |s.rows| <= i < |Step(s, a).rows| ==>
                          && Step(s, a).rows[i].discoveryId == None && Step(s, a).rows[i].key.TestKey?
                          && !HasKey(s.rows, Step(s, a).rows[i].key) && i == |s.rows|
  {
  }

  lemma DeliverKeepsBijection(w: World, a: Action)
    requires Bijective(w) && !a.Enqueue?
    ensures Bijective(w.(outbox := Step(w.outbox, a)))
  {
    var rows, rows' := w.outbox.rows, Step(w.outbox, a).rows;
    var w' := w.(outbox := Step(w.outbox, a));
    DeliveryKeepsNames(w.outbox, a);
    forall i | 0 <= i < |rows'|
      ensures RowAnnounces(w', rows'[i]) && (rows'[i].discoveryId.Some? ==> rows'[i].discoveryId.value < |w.ledger.archive.discoveries|)
    {
      if i < |rows| { assert RowAnnounces(w, rows[i]); }
    }
    forall d: nat | Announced(w', d) ensures HasRow(rows', d) {
      assert Announced(w, d);
      var i :| 0 <= i < |rows| && rows[i].discoveryId == Some(d);
      assert rows'[i].discoveryId == Some(d);
    }
    forall i, j | 0 <= i < j < |rows'| ensures rows'[i].key != rows'[j].key {
      if j >= |rows| { assert !HasKey(rows, rows'[j].key); }
    }
  }

  // ---------------------------------------------------------------- collection

  /** A run appends to the archive: new discoveries belong to new runs. */
  ghost predicate Appends(a: Archive, a': Archive) {
    && |a.runs| <= |a'.runs| && a'.runs[..|a.runs|] == a.runs
    && |a'.observations| - |a.observations| == |a'.runs| - |a.runs|
    && |a.discoveries| <= |a'.discoveries| && a'.discoveries[..|a.discoveries|] == a.discoveries
    && forall d :: |a.discoveries| <= d < |a'.discoveries| ==> |a.runs| <= a'.discoveries[d].run < |a'.runs|
  }

  lemma SaveAppends(l: L.Ledger, row: RunRow, obs: seq<Observation>, found: seq<Discovery>)
    ensures Appends(l.archive, L.WithRun(l, row, obs, found).archive)
  {
  }

  lemma AppendsTwice(a: Archive, b: Archive, c: Archive)
    requires Appends(a, b) && Appends(b, c)
    ensures Appends(a, c)
  {
    forall d | |a.discoveries| <= d < |c.discoveries| ensures |a.runs| <= c.discoveries[d].run < |c.runs| {
      if d < |b.discoveries| { assert c.discoveries[..|b.discoveries|][d] == b.discoveries[d]; }
    }
    assert c.runs[..|a.runs|] == c.runs[..|b.runs|][..|a.runs|];
    assert c.discoveries[..|a.discoveries|] == c.discoveries[..|b.discoveries|][..|a.discoveries|];
  }

  lemma FailedStatesAppend(l: L.Ledger, run: L.RunInput, o: L.Opening, error: RunError)
    ensures forall i :: 0 <= i < 3 ==> Appends(l.archive, L.FailedStates(l, run, o, error)[i].archive)
  {
    SaveAppends(l, L.FailedRow(run, o, error), [], []);
  }

  lemma ConcludedStatesAppend(a: Archive, l: L.Ledger, run: L.RunInput, o: L.Opening, warning: bool)
    requires Appends(a, l.archive)
    ensures forall i :: 0 <= i < |L.ConcludedStates(l, run, o, warning)| ==>
                          Appends(a, L.ConcludedStates(l, run, o, warning)[i].archive)
  {
    AppendsAfter(a, l, run, o);
    AppendsAfter(a, L.WithTerminal(l, run, o, true), run, o);
  }

  lemma HealthyStatesAppend(run: L.RunInput, o: L.Opening, warning: bool)
    requires run.collected.Returned?
    ensures forall i :: 0 <= i < |L.HealthyStates(run, o, warning)| ==>
                          Appends(o.ledger.archive, L.HealthyStates(run, o, warning)[i].archive)
  {
    var row, obs, found := L.HealthyRow(run, o, warning), run.collected.observations, L.Found(run, o);
    if run.saveFails {
      FailedStatesAppend(o.ledger, run, o, StoreFailed);
    } else {
      SaveAppends(o.ledger, row, obs, found);
      ConcludedStatesAppend(o.ledger.archive, L.WithRun(o.ledger, row, obs, found), run, o, warning);
    }
  }

  lemma RunAppends(l: L.Ledger, run: L.RunInput, lives: nat)
    ensures Appends(l.archive, L.RunFor(l, run, lives).archive)
  {
    var o := L.Open(l, run);
    match L.Judge(run, o.previousCount)
    case Err(error) => FailedStatesAppend(o.ledger, run, o, error);
    case Ok(warning) => HealthyStatesAppend(run, o, warning);
  }

  lemma AppendsAfter(a: Archive, l: L.Ledger, run: L.RunInput, o: L.Opening)
    requires Appends(a, l.archive)
    ensures forall i :: 0 <= i < 3 ==> Appends(a, L.FailedStates(l, run, o, StoreFailed)[i].archive)
  {
    FailedStatesAppend(l, run, o, StoreFailed);
    forall i | 0 <= i < 3 ensures Appends(a, L.FailedStates(l, run, o, StoreFailed)[i].archive) {
      AppendsTwice(a, l.archive, L.FailedStates(l, run, o, StoreFailed)[i].archive);
    }
  }

  // ---------------------------------------------------------------- intents

  lemma IntentPuts(s: System, found: seq<DiscoveryRow>, d: nat)
    requires d < |found|
    ensures Run(s, Intent(found, d)) ==
            if DeliveryEligible(found[d].discovery.level)
            then s.(rows := Put(s.rows, NotificationFor(d, At(found[d].discovery.discoveredAt)))) else s
  {
    if DeliveryEligible(found[d].discovery.level) {
      assert Intent(found, d)[1..] == [];
    }
  }

  /** The intents of the protocol and the rows save_run leaves are the same thing. */
  lemma {:induction false} IntentsQueue(s: System, found: seq<DiscoveryRow>, first: nat, end: nat)
    requires first <= end <= |found|
    ensures Run(s, Intents(found, first, end)) == s.(rows := Queued(s.rows, found, first, end))
  {
    if first < end {
      var before := s.(rows := Queued(s.rows, found, first, end - 1));
      IntentsQueue(s, found, first, end - 1);
      RunConcat(s, Intents(found, first, end - 1), Intent(found, end - 1));
      IntentPuts(before, found, end - 1);
    }
  }

  /** One more discovery: its intent puts exactly its row. */
  lemma IntentCovers(w: World, rows: seq<Row>, d: nat)
    requires d < |w.ledger.archive.discoveries| && Covers(w, rows, d)
    requires w.ledger.archive.discoveries[d].run < |w.wirings| && Notifies(w.wirings[w.ledger.archive.discoveries[d].run])
    ensures var found := w.ledger.archive.discoveries;
            var row := NotificationFor(d, At(found[d].discovery.discoveredAt));
            Covers(w, if DeliveryEligible(found[d].discovery.level) then Put(rows, row) else rows, d + 1)
  {
    var found := w.ledger.archive.discoveries;
    if DeliveryEligible(found[d].discovery.level) {
      var row := NotificationFor(d, At(found[d].discovery.discoveredAt));
      assert Announced(w, d) && RowAnnounces(w, row);
      forall i | 0 <= i < |rows| ensures rows[i].key != row.key {
        assert RowAnnounces(w, rows[i]);
      }
      assert !HasKey(rows, row.key);
      var rows' := rows + [row];
      forall e: nat | e < d + 1 && Announced(w, e) ensures HasRow(rows', e) {
        if e < d {
          var i :| 0 <= i < |rows| && rows[i].discoveryId == Some(e);
          assert rows'[i].discoveryId == Some(e);
        } else {
          assert rows'[|rows|].discoveryId == Some(e);
        }
      }
    }
  }

  lemma {:induction false} IntentsCover(w: World, rows: seq<Row>, first: nat, end: nat)
    requires first <= end <= |w.ledger.archive.discoveries| && Covers(w, rows, first)
    requires forall d :: first <= d < end ==>
               w.ledger.archive.discoveries[d].run < |w.wirings| && Notifies(w.wirings[w.ledger.archive.discoveries[d].run])
    ensures Covers(w, Queued(rows, w.ledger.archive.discoveries, first, end), end)
  {
    if first < end {
      IntentsCover(w, rows, first, end - 1);
      IntentCovers(w, Queued(rows, w.ledger.archive.discoveries, first, end - 1), end - 1);
    }
  }

  /** What was announced stays announced when the archive only grows. */
  lemma AnnouncementsStay(w: World, w': World)
    requires Bijective(w) && Appends(w.ledger.archive, w'.ledger.archive)
    requires |w.wirings| <= |w'.wirings| && w'.wirings[..|w.wirings|] == w.wirings
    ensures Covers(w', w.outbox.rows, |w.ledger.archive.discoveries|)
  {
    var n := |w.ledger.archive.discoveries|;
    forall d: nat | d < n ensures Announced(w', d) <==> Announced(w, d) {
      var found, found' := w.ledger.archive.discoveries, w'.ledger.archive.discoveries;
      assert found'[..n][d] == found'[d];
      assert w'.wirings[..|w.wirings|][found[d].run] == w'.wirings[found[d].run];
    }
    forall i | 0 <= i < |w.outbox.rows| ensures RowAnnounces(w', w.outbox.rows[i]) {
      assert RowAnnounces(w, w.outbox.rows[i]);
      var id := w.outbox.rows[i].discoveryId;
      if id.Some? {
        assert w'.ledger.archive.discoveries[..n][id.value] == w'.ledger.archive.discoveries[id.value];
      }
    }
  }

  lemma CollectKeepsBijection(w: World, m: Move)
    requires Bijective(w) && m.Collect?
    ensures Bijective(DoCollect(w, m))
  {
    RunAppends(w.ledger, m.run, m.lives);
    var w' := DoCollect(w, m);
    AppendsShaped(w.ledger.archive, w'.ledger.archive);
    var before, after := w.ledger.archive, w'.ledger.archive;
    var wiring := Wiring(m.factory, m.run.collector.tier, m.run.collector.name in m.allowlist);
    AnnouncementsStay(w, w');
    forall d | |before.discoveries| <= d < |after.discoveries|
      ensures after.discoveries[d].run < |w'.wirings| && w'.wirings[after.discoveries[d].run] == wiring
    {
    }
    if Notifies(wiring) {
      IntentsCover(w', w.outbox.rows, |before.discoveries|, |after.discoveries|);
    } else {
      forall d: nat | d < |after.discoveries| && Announced(w', d) ensures HasRow(w.outbox.rows, d) {
        assert d < |before.discoveries|;
      }
    }
  }

  lemma AppendsShaped(a: Archive, a': Archive)
    requires Shaped(a) && Appends(a, a')
    ensures Shaped(a')
  {
    forall d | 0 <= d < |a'.discoveries| ensures a'.discoveries[d].run < |a'.runs| {
      if d < |a.discoveries| { assert a'.discoveries[..|a.discoveries|][d] == a'.discoveries[d]; }
    }
  }

  lemma {:induction false} LifeIsBijective(w: World, moves: seq<Move>)
    requires Bijective(w)
    ensures Bijective(Life(w, moves))
    decreases |moves|
  {
    if moves != [] {
      match moves[0] {
        case Collect(_, _, _, _) => CollectKeepsBijection(w, moves[0]);
        case Deliver(a) => if !a.Enqueue? { DeliverKeepsBijection(w, a); }
      }
      LifeIsBijective(Advance(w, moves[0]), moves[1..]);
    }
  }

  /** A life of the newsroom is one history of runs and one history of deliveries, so everything proved of
      those holds of it. */
  lemma {:induction false} LifeIsTwoHistories(w: World, moves: seq<Move>) returns (episodes: seq<L.Episode>, actions: seq<Action>)
    ensures Life(w, moves).ledger == L.History(w.ledger, episodes)
    ensures Life(w, moves).outbox == Run(w.outbox, actions)
    decreases |moves|
  {
    if moves == [] {
      episodes, actions := [], [];
    } else {
      var next := Advance(w, moves[0]);
      var laterEpisodes, laterActions := LifeIsTwoHistories(next, moves[1..]);
      match moves[0] {
        case Collect(run, lives, _, _) =>
          episodes := [L.Episode(run, lives)] + laterEpisodes;
          var before, after := w.ledger.archive, next.ledger.archive;
          RunAppends(w.ledger, run, lives);
          var intents := if next.outbox == w.outbox then [] else Intents(after.discoveries, |before.discoveries|, |after.discoveries|);
          IntentsQueue(w.outbox, after.discoveries, |before.discoveries|, |after.discoveries|);
          RunConcat(w.outbox, intents, laterActions);
          actions := intents + laterActions;
        case Deliver(a) =>
          episodes := laterEpisodes;
          if a.Enqueue? {
            actions := laterActions;
          } else {
            actions := [a] + laterActions;
          }
      }
    }
  }

  /** Something was found only if a healthy run was committed with it. */
  ghost predicate FindsByCommit(a: Archive, a': Archive) {
    a'.discoveries == a.discoveries || exists r :: |a.runs| <= r < |a'.runs| && a'.runs[r].healthy
  }

  lemma FailedStatesFindNothing(a: Archive, l: L.Ledger, run: L.RunInput, o: L.Opening, error: RunError)
    requires |a.runs| <= |l.archive.runs| && FindsByCommit(a, l.archive)
    ensures forall i :: 0 <= i < 3 ==> FindsByCommit(a, L.FailedStates(l, run, o, error)[i].archive)
  {
    var saved := L.WithRun(l, L.FailedRow(run, o, error), [], []);
    if l.archive.discoveries != a.discoveries {
      var r :| |a.runs| <= r < |l.archive.runs| && l.archive.runs[r].healthy;
      assert saved.archive.runs[r].healthy;
    }
  }

  lemma ConcludedStatesFindNothing(a: Archive, l: L.Ledger, run: L.RunInput, o: L.Opening, warning: bool)
    requires |a.runs| <= |l.archive.runs| && FindsByCommit(a, l.archive)
    ensures forall i :: 0 <= i < |L.ConcludedStates(l, run, o, warning)| ==>
                          FindsByCommit(a, L.ConcludedStates(l, run, o, warning)[i].archive)
  {
    FailedStatesFindNothing(a, l, run, o, StoreFailed);
    FailedStatesFindNothing(a, L.WithTerminal(l, run, o, true), run, o, StoreFailed);
  }

  lemma HealthyStatesFindByCommit(run: L.RunInput, o: L.Opening, warning: bool)
    requires run.collected.Returned?
    ensures forall i :: 0 <= i < |L.HealthyStates(run, o, warning)| ==>
                          FindsByCommit(o.ledger.archive, L.HealthyStates(run, o, warning)[i].archive)
  {
    var a, row := o.ledger.archive, L.HealthyRow(run, o, warning);
    var saved := L.WithRun(o.ledger, row, run.collected.observations, L.Found(run, o));
    assert saved.archive != a ==> saved.archive.runs[|a.runs|] == row;
    FailedStatesFindNothing(a, o.ledger, run, o, StoreFailed);
    ConcludedStatesFindNothing(a, saved, run, o, warning);
  }

  lemma RunFindsByCommit(l: L.Ledger, run: L.RunInput, lives: nat)
    ensures FindsByCommit(l.archive, L.RunFor(l, run, lives).archive)
  {
    var o := L.Open(l, run);
    match L.Judge(run, o.previousCount)
    case Err(error) => FailedStatesFindNothing(l.archive, o.ledger, run, o, error);
    case Ok(warning) => HealthyStatesFindByCommit(run, o, warning);
  }

  ghost predicate CommitsHealthy(before: seq<RunRow>, after: seq<RunRow>) {
    exists r :: |before| <= r < |after| && after[r].healthy
  }

  /** A run that commits no healthy row leaves neither a discovery nor a notification row: whether its checks
      failed, its save was rolled back, or its process died before. */
  lemma UncommittedRunLeavesNeither(w: World, run: L.RunInput, lives: nat, factory: bool, allowlist: set<string>)
    ensures var w' := DoCollect(w, Collect(run, lives, factory, allowlist));
            CommitsHealthy(w.ledger.archive.runs, w'.ledger.archive.runs)
            || (w'.ledger.archive.discoveries == w.ledger.archive.discoveries && w'.outbox.rows == w.outbox.rows)
  {
    RunFindsByCommit(w.ledger, run, lives);
  }

  lemma EmptyIsBijective(w: World)
    requires Begins(w)
    ensures Bijective(w)
  {
  }

  // ---------------------------------------------------------------- how the runs were made

  lemma {:induction false} LifeConcat(w: World, first: seq<Move>, second: seq<Move>)
    ensures Life(w, first + second) == Life(Life(w, first), second)
    decreases |first|
  {
    if first == [] {
      assert first + second == second;
    } else {
      assert (first + second)[1..] == first[1..] + second;
      LifeConcat(Advance(w, first[0]), first[1..], second);
    }
  }

  lemma {:induction false} WiringsStay(w: World, moves: seq<Move>)
    ensures |w.wirings| <= |Life(w, moves).wirings| && Life(w, moves).wirings[..|w.wirings|] == w.wirings
    decreases |moves|
  {
    if moves != [] {
      var next := Advance(w, moves[0]);
      WiringsStay(next, moves[1..]);
      assert next.wirings[..|w.wirings|] == w.wirings;
      assert Life(w, moves).wirings[..|w.wirings|] == Life(w, moves).wirings[..|next.wirings|][..|w.wirings|];
    }
  }

  /** Run `r` is a row of the run that move `k` made. */
  ghost predicate MadeBy(w0: World, moves: seq<Move>, r: nat, k: nat) {
    k < |moves| && moves[k].Collect?
    && |Life(w0, moves[..k]).ledger.archive.runs| <= r < |Life(w0, moves[..k + 1]).ledger.archive.runs|
  }

  lemma OneMove(w: World, m: Move)
    ensures Life(w, [m]) == Advance(w, m)
  {
    assert [m][1..] == [];
  }

  lemma UpTo(w0: World, moves: seq<Move>, k: nat)
    requires k < |moves|
    ensures Life(w0, moves[..k + 1]) == Advance(Life(w0, moves[..k]), moves[k])
  {
    assert moves[..k + 1] == moves[..k] + [moves[k]];
    LifeConcat(w0, moves[..k], [moves[k]]);
    OneMove(Life(w0, moves[..k]), moves[k]);
  }

  lemma FromThenOn(w0: World, moves: seq<Move>, k: nat)
    requires k <= |moves|
    ensures Life(w0, moves) == Life(Life(w0, moves[..k]), moves[k..])
  {
    assert moves == moves[..k] + moves[k..];
    LifeConcat(w0, moves[..k], moves[k..]);
  }

  lemma WiringTellsTheMove(w0: World, moves: seq<Move>, r: nat, k: nat)
    requires Begins(w0) && MadeBy(w0, moves, r, k)
    ensures r < |Life(w0, moves).wirings|
    ensures var wiring, m := Life(w0, moves).wirings[r], moves[k];
            wiring.factory == m.factory && wiring.tier == m.run.collector.tier
            && (wiring.allowlisted <==> m.run.collector.name in m.allowlist)
  {
    var before, after := Life(w0, moves[..k]), Life(w0, moves[..k + 1]);
    EmptyIsBijective(w0);
    LifeIsBijective(w0, moves[..k]);
    LifeIsBijective(w0, moves[..k + 1]);
    UpTo(w0, moves, k);
    FromThenOn(w0, moves, k + 1);
    WiringsStay(after, moves[k + 1..]);
    assert Life(w0, moves).wirings[..|after.wirings|][r] == after.wirings[r];
  }

  lemma {:induction false} SomeMoveMadeIt(w0: World, moves: seq<Move>, r: nat) returns (k: nat)
    requires Begins(w0) && r < |Life(w0, moves).ledger.archive.runs|
    ensures MadeBy(w0, moves, r, k)
    decreases |moves|
  {
    assert moves != [];
    var n := |moves| - 1;
    assert moves[..n + 1] == moves;
    UpTo(w0, moves, n);
    if r < |Life(w0, moves[..n]).ledger.archive.runs| {
      k := SomeMoveMadeIt(w0, moves[..n], r);
      assert moves[..n][..k] == moves[..k] && moves[..n][..k + 1] == moves[..k + 1];
    } else {
      k := n;
    }
  }

  /** All three gates of a collection are open: the runner had the factory, and the collector is of the
      production tier and on the allowlist. */
  predicate OpenGates(m: Move) {
    m.Collect? && m.factory && m.run.collector.tier == Production && m.run.collector.name in m.allowlist
  }

  /** A discovery deserves its row: it is critical or newsworthy, and a collection with open gates made the run
      that found it. */
  ghost predicate Deserves(w0: World, moves: seq<Move>, d: nat) {
    var found := Life(w0, moves).ledger.archive.discoveries;
    && d < |found| && (found[d].discovery.level == Critical || found[d].discovery.level == Newsworthy)
    && exists k: nat :: MadeBy(w0, moves, found[d].run, k) && OpenGates(moves[k])
  }

  lemma AnnouncedIsDeserved(w0: World, moves: seq<Move>, d: nat)
    requires Begins(w0)
    ensures Announced(Life(w0, moves), d) <==> Deserves(w0, moves, d)
  {
    EmptyIsBijective(w0);
    LifeIsBijective(w0, moves);
    var w := Life(w0, moves);
    var found := w.ledger.archive.discoveries;
    if d < |found| {
      var k := SomeMoveMadeIt(w0, moves, found[d].run);
      WiringTellsTheMove(w0, moves, found[d].run, k);
      if j: nat :| MadeBy(w0, moves, found[d].run, j) && OpenGates(moves[j]) {
        WiringTellsTheMove(w0, moves, found[d].run, j);
      }
    }
  }

  /** The row of a discovery names it, carries its embed and its time, and has its key to itself. */
  ghost predicate RowTells(rows: seq<Row>, i: nat, d: nat, foundAt: Instant) {
    && i < |rows| && rows[i].discoveryId == Some(d) && rows[i].key == DiscoveryKey(d) && rows[i].payload == DiscoveryEmbed(d)
    && rows[i].eventTime == At(foundAt)
    && forall j :: 0 <= j < |rows| && rows[j].discoveryId == Some(d) ==> j == i
  }

  /** In every reachable state each notification row linked to a discovery is the only row of its discovery
      and carries its time; its discovery is critical or newsworthy and was found by a healthy run that was
      not the first of its epoch, made with the intent factory by an allowlisted production collector; and
      every such discovery has its row. */
  lemma NotificationsMatchDiscoveries(w0: World, moves: seq<Move>)
    requires Begins(w0)
    ensures var w := Life(w0, moves);
            var rows := w.outbox.rows;
            && (forall i :: 0 <= i < |rows| && rows[i].discoveryId.Some? ==>
                  && Deserves(w0, moves, rows[i].discoveryId.value) && FoundByHealthyRun(w, rows[i].discoveryId.value)
                  && RowTells(rows, i, rows[i].discoveryId.value,
                              w.ledger.archive.discoveries[rows[i].discoveryId.value].discovery.discoveredAt))
            && (forall d: nat :: Deserves(w0, moves, d) ==> HasRow(rows, d))
  {
    EmptyIsBijective(w0);
    LifeIsBijective(w0, moves);
    var episodes, _ := LifeIsTwoHistories(w0, moves);
    LedgerHistory.EveryHistoryIsConsistent(episodes);
    var w := Life(w0, moves);
    var rows := w.outbox.rows;
    forall d: nat ensures Announced(w, d) <==> Deserves(w0, moves, d) {
      AnnouncedIsDeserved(w0, moves, d);
    }
    forall i | 0 <= i < |rows| && rows[i].discoveryId.Some?
      ensures && Announced(w, rows[i].discoveryId.value) && FoundByHealthyRun(w, rows[i].discoveryId.value)
              && RowTells(rows, i, rows[i].discoveryId.value,
                          w.ledger.archive.discoveries[rows[i].discoveryId.value].discovery.discoveredAt)
    {
      assert RowAnnounces(w, rows[i]);
      forall j | 0 <= j < |rows| && rows[j].discoveryId == rows[i].discoveryId ensures j == i {
        assert RowAnnounces(w, rows[j]);
      }
    }
  }

  // ---------------------------------------------------------------- one collection

  /** A collection with any gate closed leaves the outbox alone. */
  lemma ClosedGatesQueueNothing(w: World, m: Move)
    requires m.Collect? && (!m.factory || m.run.collector.tier != Production || m.run.collector.name !in m.allowlist)
    ensures DoCollect(w, m).outbox == w.outbox
  {
  }

  predicate Loud(d: DiscoveryRow) {
    d.discovery.level == Critical || d.discovery.level == Newsworthy
  }

  /** The rows due to these discoveries: one for each critical or newsworthy one, in their order, pending, never
      tried and under no floor. */
  function RowsDue(found: seq<DiscoveryRow>, first: nat, end: nat): (due: seq<Row>)
    requires first <= end <= |found|
    ensures forall i :: 0 <= i < |due| ==> due[i].key.DiscoveryKey? && first <= due[i].key.discovery < end
  {
    if first == end then []
    else
      var d := end - 1;
      RowsDue(found, first, d) +
      if Loud(found[d])
      then [Row(DiscoveryKey(d), Some(d), At(found[d].discovery.discoveredAt), DiscoveryEmbed(d), Pending, 0, None, None,
                Missing, None, None)]
      else []
  }

  /** No row of these discoveries yet. */
  ghost predicate Unqueued(rows: seq<Row>, first: nat) {
    forall i :: 0 <= i < |rows| && rows[i].key.DiscoveryKey? ==> rows[i].key.discovery < first
  }

  /** Queueing appends exactly the rows due. */
  lemma {:induction false} QueuedIsExact(rows: seq<Row>, found: seq<DiscoveryRow>, first: nat, end: nat)
    requires first <= end <= |found| && Unqueued(rows, first)
    ensures Queued(rows, found, first, end) == rows + RowsDue(found, first, end)
  {
    if first < end {
      QueuedIsExact(rows, found, first, end - 1);
      var due := RowsDue(found, first, end - 1);
      assert !HasKey(rows + due, DiscoveryKey(end - 1));
    }
  }

  /** A collection with all gates open queues exactly the rows of the critical and newsworthy discoveries it
      committed. */
  lemma OpenGatesQueueEach(w: World, m: Move)
    requires OpenGates(m) && Bijective(w)
    ensures var before, w' := |w.ledger.archive.discoveries|, DoCollect(w, m);
            var found := w'.ledger.archive.discoveries;
            before <= |found| && w'.outbox == w.outbox.(rows := w.outbox.rows + RowsDue(found, before, |found|))
  {
    RunAppends(w.ledger, m.run, m.lives);
    var before, found := |w.ledger.archive.discoveries|, DoCollect(w, m).ledger.archive.discoveries;
    forall i | 0 <= i < |w.outbox.rows| && w.outbox.rows[i].key.DiscoveryKey?
      ensures w.outbox.rows[i].key.discovery < before
    {
      assert RowAnnounces(w, w.outbox.rows[i]);
    }
    QueuedIsExact(w.outbox.rows, found, before, |found|);
  }

  ghost predicate FoundByHealthyRun(w: World, d: nat) {
    d < |w.ledger.archive.discoveries| && L.FoundAfterBaseline(w.ledger.archive, d)
  }

  // ---------------------------------------------------------------- end to end

  predicate RowOf(rows: seq<Row>, row: nat, d: nat) {
    row < |rows| && rows[row].discoveryId == Some(d)
  }

  /** The sender accepted a post of this discovery. */
  function AcceptedOf(rows: seq<Row>, d: nat): Event -> bool {
    (e: Event) => e.Posted? && e.answer.Accepted? && RowOf(rows, e.row, d)
  }

  /** A process was cut short between such an acceptance and its mark. */
  function LostOf(rows: seq<Row>, d: nat): Event -> bool {
    (e: Event) => e.Lost? && RowOf(rows, e.row, d)
  }

  lemma AcceptedOnItsRow(w: World, i: nat, d: nat)
    requires Bijective(w) && RowOf(w.outbox.rows, i, d)
    ensures Count(w.outbox.log, AcceptedOf(w.outbox.rows, d)) == Count(w.outbox.log, DeliveryHistory.AcceptedPost(i))
    ensures Count(w.outbox.log, LostOf(w.outbox.rows, d)) == Count(w.outbox.log, DeliveryHistory.LostPost(i))
  {
    var rows := w.outbox.rows;
    forall j: nat ensures RowOf(rows, j, d) <==> j == i {
      if RowOf(rows, j, d) { assert RowAnnounces(w, rows[j]) && RowAnnounces(w, rows[i]); }
    }
    FilterAgrees(w.outbox.log, AcceptedOf(rows, d), DeliveryHistory.AcceptedPost(i));
    FilterAgrees(w.outbox.log, LostOf(rows, d), DeliveryHistory.LostPost(i));
  }

  /** End to end: in every life a discovery is posted only once it is committed and worth announcing, and it
      is accepted at most once unless a process died between an acceptance and its mark or that mark raised. */
  lemma AnnouncedAtMostOnce(w0: World, moves: seq<Move>, d: nat)
    requires Begins(w0)
    ensures var w := Life(w0, moves);
            var rows, log := w.outbox.rows, w.outbox.log;
            && (forall k :: 0 <= k < |log| && log[k].Posted? && RowOf(rows, log[k].row, d) ==> Deserves(w0, moves, d))
            && (!Deserves(w0, moves, d) ==> Count(log, AcceptedOf(rows, d)) == 0)
            && (Count(log, LostOf(rows, d)) == 0 ==> Count(log, AcceptedOf(rows, d)) <= 1)
  {
    EmptyIsBijective(w0);
    LifeIsBijective(w0, moves);
    AnnouncedIsDeserved(w0, moves, d);
    var _, actions := LifeIsTwoHistories(w0, moves);
    var w := Life(w0, moves);
    var rows := w.outbox.rows;
    if exists i: nat :: RowOf(rows, i, d) {
      var i: nat :| RowOf(rows, i, d);
      assert RowAnnounces(w, rows[i]);
      AcceptedOnItsRow(w, i, d);
      DeliveryHistory.AcceptedPostsAreConserved(w0.outbox, actions, i);
    } else {
      CountNone(w.outbox.log, AcceptedOf(rows, d));
    }
  }
}
