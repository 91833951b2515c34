/**
 The store as the program uses it: one object whose methods change its tables, one transaction each.
 Models SQLiteStore of core/store.py.  `raises` stands for a write that fails: its transaction is rolled
 back and the method reports an error.
 */
module Store {
  import opened Common
  import opened DeliveryPolicy
  import opened Models
  import opened Qualification
  import opened RunArchive
  import opened Outbox
  import Newsroom
  import L = Ledger

  class SQLiteStore {
    var runs: seq<RunRow>
    var observations: seq<seq<Observation>>
    var discoveries: seq<RunArchive.DiscoveryRow>
    var health: map<string, L.HealthRecord>
    var epochs: seq<EpochRow>
    var events: seq<EventRow>
    var notifications: seq<Row>
    var policy: Option<Stamp>
    var drawn: nat

    constructor ()
      ensures Ledger() == L.EMPTY_LEDGER && notifications == [] && policy == None
    {
      runs, observations, discoveries, health := [], [], [], map[];
      epochs, events, notifications, policy, drawn := [], [], [], None, 0;
    }

    ghost function Ledger(): L.Ledger
      reads this
    {
      L.Ledger(Archive(runs, observations, discoveries), Book(epochs, events), health, drawn)
    }

    // ---------------------------------------------------------------- qualification

    method DrawUuid() returns (id: nat)
      modifies this`drawn
      ensures id == old(drawn) && drawn == id + 1
    {
      id := drawn;
      drawn := drawn + 1;
    }

    method PrepareQualification(collector: string, execution: nat, material: Material, trigger: Trigger, startedAt: Instant)
      returns (epoch: EpochRow)
      modifies this`epochs, this`events, this`drawn
      ensures (Book(epochs, events), epoch) ==
              Prepare(old(Book(epochs, events)), collector, execution, material, trigger, startedAt, old(drawn))
      ensures drawn == if Book(epochs, events) == old(Book(epochs, events)) then old(drawn) else old(drawn) + 1
      ensures old(epochs) <= epochs && old(events) <= events
      ensures CurrentEpoch(epochs, collector) == Some(epoch) && epoch.material == material
      ensures forall c: string :: c != collector ==> CurrentEpoch(epochs, c) == CurrentEpoch(old(epochs), c)
      ensures var before := CurrentEpoch(old(epochs), collector);
              if before.Some? && before.value.material == material then |epochs| == |old(epochs)| && |events| == |old(events)|
              else |epochs| == |old(epochs)| + 1 && |events| == |old(events)| + 1 && epoch.previousEpoch == PreviousEpoch(before)
    {
      var current := CurrentEpoch(epochs, collector);
      if current.Some? && current.value.material == material {
        return current.value;
      }
      var reason := if current.None? then InitialMaterialIdentity else MaterialIdentityChanged;
      var epochId := DrawUuid();
      epoch := EpochRow(collector, epochId, material, startedAt, execution, trigger, reason,
                        PreviousEpoch(current), PreviousMaterial(current));
      var event := EventRow(collector, if current.None? then EpochStarted else Reset, execution, epochId, material,
                            Parsed(material), trigger, None, PreviousEpoch(current), PreviousMaterial(current), startedAt);
      assert |epochs + [epoch]| == |epochs| + 1 && (epochs + [epoch])[..|epochs|] == epochs;
      epochs, events := epochs + [epoch], events + [event];
    }

    method RecordQualificationTerminal(row: EventRow, raises: bool) returns (ok: bool)
      modifies this`events
      ensures ok == !raises
      ensures Book(epochs, events) ==
              if raises then old(Book(epochs, events)) else RecordTerminal(old(Book(epochs, events)), row)
      ensures old(events) <= events && |events| <= |old(events)| + 1
      ensures |events| > |old(events)| <==>
                ok && forall i :: 0 <= i < |old(events)| && old(events)[i].kind == Terminal && old(events)[i].collector == row.collector ==>
                  old(events)[i].execution != row.execution
      ensures |events| > |old(events)| ==> events[|old(events)|] == row
      ensures ok && row.kind == Terminal ==> HasTerminal(events, row.collector, row.execution)
      ensures OneTerminalEach(old(events)) ==> OneTerminalEach(events)
    {
      if raises { return false; }
      if !HasTerminal(events, row.collector, row.execution) {
        events := events + [row];
        assert events[|events| - 1] == row;
      }
      ok := true;
    }

    method SaveHealth(collector: string, record: L.HealthRecord, raises: bool) returns (ok: bool)
      modifies this`health
      ensures ok == !raises && health == if raises then old(health) else old(health)[collector := record]
    {
      if !raises { health := health[collector := record]; }
      ok := !raises;
    }

    // ---------------------------------------------------------------- runs

    /** One transaction: the run, its observations, its discoveries and their notification rows, or nothing.
        The unique key on (run, identity) makes a healthy save of duplicate identities fail. */
    method SaveRun(row: RunRow, obs: seq<Observation>, found: seq<Discovery>, intent: bool, raises: bool)
      returns (ok: bool)
      requires |observations| == |runs|
      modifies this`runs, this`observations, this`discoveries, this`notifications
      ensures |observations| == |runs|
      ensures ok == (!raises && RunArchive.SaveRun(old(Archive(runs, observations, discoveries)), row, obs, found).Ok?)
      ensures !ok ==> Archive(runs, observations, discoveries) == old(Archive(runs, observations, discoveries))
                      && notifications == old(notifications)
      ensures ok ==>
                && Ok(Archive(runs, observations, discoveries)) ==
                   RunArchive.SaveRun(old(Archive(runs, observations, discoveries)), row, obs, found)
                && notifications ==
                   if intent && row.healthy
                   then Newsroom.Queued(old(notifications), discoveries, |old(discoveries)|, |discoveries|)
                   else old(notifications)
    {
      if raises { return false; }
      if !row.healthy {
        runs, observations := runs + [row], observations + [[]];
        return true;
      }
      var seen: set<string> := {};
      for i := 0 to |obs|
        invariant UniqueIdentities(obs[..i])
        invariant seen == Identities(obs[..i])
      {
        assert obs[..i + 1] == obs[..i] + [obs[i]];
        if obs[i].identity in seen {
          assert !UniqueIdentities(obs) by { Clash(obs, i); }
          return false;
        }
        seen := seen + {obs[i].identity};
      }
      assert obs[..|obs|] == obs;
      var runId, table, queue := |runs|, discoveries, notifications;
      ghost var all := discoveries + RowsFor(runId, found);
      for i := 0 to |found|
        invariant table == all[..|discoveries| + i]
        invariant queue == if intent then Newsroom.Queued(notifications, all, |discoveries|, |discoveries| + i) else notifications
      {
        table := table + [RunArchive.DiscoveryRow(runId, found[i])];
        if intent && Newsroom.DeliveryEligible(found[i].level) {
          queue := Put(queue, NotificationFor(|table| - 1, At(found[i].discoveredAt)));
        }
      }
      assert all[..|discoveries| + |found|] == all;
      runs, observations, discoveries, notifications := runs + [row], observations + [obs], table, queue;
      ok := true;
    }

    lemma Clash(obs: seq<Observation>, i: nat)
      requires i < |obs| && obs[i].identity in Identities(obs[..i])
      ensures !UniqueIdentities(obs)
    {
      var o :| o in obs[..i] && o.identity == obs[i].identity;
      var j :| 0 <= j < i && obs[..i][j] == o;
      assert obs[j].identity == obs[i].identity;
    }

    // ---------------------------------------------------------------- notifications and policy

    method MarkNotification(id: nat, status: Status, error: Option<string>, http: Option<int>, countAttempt: bool, now: Instant,
                            raises: bool) returns (ok: bool)
      requires id < |notifications|
      modifies this`notifications
      ensures ok == !raises
      ensures OnlyRow(old(notifications), notifications, id)
      ensures if ok then Marked(old(notifications)[id], notifications[id], status, error, http, countAttempt, now)
              else notifications == old(notifications)
    {
      if !raises { notifications := notifications[id := Mark(notifications[id], status, error, http, countAttempt, now)]; }
      ok := !raises;
    }

    method DeferNotification(id: nat, until: Instant, raises: bool) returns (ok: bool)
      requires id < |notifications|
      modifies this`notifications
      ensures ok == !raises
      ensures OnlyRow(old(notifications), notifications, id)
      ensures if ok then Postponed(old(notifications)[id], notifications[id], until) else notifications == old(notifications)
    {
      if !raises { notifications := notifications[id := notifications[id].(notBefore := At(until))]; }
      ok := !raises;
    }

    /** The rows so far stay, in place, and the key is there afterwards; it is the new row's own exactly if no
        row had it.  So keys that were distinct stay distinct. */
    method NotificationPut(row: Row, raises: bool) returns (ok: bool)
      modifies this`notifications
      ensures ok == !raises
      ensures old(notifications) <= notifications && |notifications| <= |old(notifications)| + 1
      ensures ok ==> notifications == Put(old(notifications), row) && HasKey(notifications, row.key)
      ensures |notifications| > |old(notifications)| <==>
                ok && forall k :: 0 <= k < |old(notifications)| ==> old(notifications)[k].key != row.key
      ensures |notifications| > |old(notifications)| ==> notifications[|old(notifications)|] == row
      ensures Newsroom.DistinctKeys(old(notifications)) ==> Newsroom.DistinctKeys(notifications)
    {
      if !raises && !HasKey(notifications, row.key) {
        notifications := notifications + [row];
        assert notifications[|notifications| - 1].key == row.key;
      }
      ok := !raises;
    }

    /** Afterwards a drain selects exactly the rows that were pending or failed. */
    method RequeueFailedNotifications()
      modifies this`notifications
      ensures |notifications| == |old(notifications)|
      ensures forall k :: 0 <= k < |notifications| ==>
                if old(notifications)[k].status == Failed then Refreshed(old(notifications)[k], notifications[k])
                else notifications[k] == old(notifications)[k]
      ensures forall k :: k in SelectedIds(notifications, false) <==>
                0 <= k < |notifications| && (old(notifications)[k].status == Pending || old(notifications)[k].status == Failed)
    {
      notifications := RequeueFailed(notifications);
    }
  }
}
