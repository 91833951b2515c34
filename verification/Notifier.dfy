/**
 The notifier: the loop of a drain, the test send and the preview, as methods over the store and the
 delivery lock.  Models DiscordNotifier and delivery_preview of notifications/discord.py.
 */
module Notifier {
  import opened Common
  import opened DeliveryPolicy
  import opened Outbox
  import opened Drain
  import opened Lock
  import opened Store

  datatype DrainResult =
    | Unconfigured(remaining: nat)
    | Busy(remaining: nat)
    | Finished(counts: Counts, remaining: nat, rateLimited: bool)
    | Aborted

  /** Without a webhook, with the grant taken, on an exception, and on any other reply. */
  datatype TestResult = TestUnconfigured | TestBusy | TestRaised | TestAnswered(sent: bool, error: Option<string>)

  datatype Counts = Counts(sent: nat, failed: nat, held: nat, deferred: nat, reasons: map<Verdict, nat>)

  function CountsOf(p: Progress): Counts {
    Counts(p.sent, p.failed, p.held, p.deferred, p.reasons)
  }

  /** The drain's locals and the live table are where the specification says they are. */
  ghost predicate Tracks(p: Progress, rows: seq<Row>, counts: Counts, stop: Stop) {
    p.rows == rows && CountsOf(p) == counts && p.stop == stop
  }

  /** A drain over the rows it selects from this table, under the stored policy. */
  ghost function WholeDrain(rows: seq<Row>, includeHeld: bool, raw: Option<Stamp>, world: nat -> Reading): Progress {
    var queue := SelectedIds(rows, includeHeld);
    Drained(rows, queue, |queue|, Mode(includeHeld, LoadPolicy(raw)), world)
  }

  /** Some turn of that drain raises: its store write does, or it posts a row and cannot read the reply. */
  ghost predicate SomeTurnRaises(rows: seq<Row>, includeHeld: bool, raw: Option<Stamp>, world: nat -> Reading) {
    var queue := SelectedIds(rows, includeHeld);
    exists j: nat :: RaisesAt(rows, queue, |queue|, Mode(includeHeld, LoadPolicy(raw)), world, j)
  }

  function PendingIds(rows: seq<Row>): set<nat> {
    set i: nat | i < |rows| && rows[i].status == Pending
  }

  /** A drain without the held rows selects every pending row once. */
  lemma {:induction false} SelectedArePending(rows: seq<Row>)
    ensures |SelectedIds(rows, false)| == |PendingIds(rows)|
  {
    if rows != [] {
      var last := |rows| - 1;
      SelectedArePending(rows[..last]);
      assert PendingIds(rows) == PendingIds(rows[..last]) + if rows[last].status == Pending then {last} else {};
    }
  }

  class DiscordNotifier {
    const store: SQLiteStore
    const lockFile: LockFile
    /** What the environment holds: nothing and an empty text both mean that no delivery is configured. */
    const webhook: Option<string>
    /** The row ids handed to the sender, in order. */
    var posted: seq<nat>

    constructor (store: SQLiteStore, lockFile: LockFile, webhook: Option<string>)
      ensures this.store == store && this.lockFile == lockFile && this.webhook == webhook && posted == []
    {
      this.store, this.lockFile, this.webhook, posted := store, lockFile, webhook, [];
    }

    predicate Configured() {
      webhook.Some? && webhook.value != ""
    }

    /** How many rows are pending. */
    function Remaining(): (n: nat)
      reads store
      ensures n == |PendingIds(store.notifications)|
    {
      SelectedArePending(store.notifications);
      |SelectedIds(store.notifications, false)|
    }

    /** `world(k)` is what the clock and the sender show at queue position `k`. */
    method Drain(includeHeld: bool, token: nat, world: nat -> Reading) returns (result: DrainResult)
      modifies this`posted, store`notifications, lockFile
      ensures webhook == None || webhook == Some("") ==>
                result == Unconfigured(old(Remaining())) && lockFile.owner == old(lockFile.owner)
      ensures webhook.Some? && webhook != Some("") && old(lockFile.owner).Some? ==>
                result == Busy(old(Remaining())) && lockFile.owner == old(lockFile.owner)
      ensures !Configured() || old(lockFile.owner).Some? ==> store.notifications == old(store.notifications) && posted == old(posted)
      ensures webhook.Some? && webhook != Some("") && old(lockFile.owner) == None ==>
                var p := WholeDrain(old(store.notifications), includeHeld, store.policy, world);
                && store.notifications == p.rows && posted == old(posted) + p.posts && lockFile.owner == None
                && result == if p.stop == Raised then Aborted
                             else Finished(CountsOf(p), Remaining(), p.stop == RateLimited)
      ensures result == Aborted <==>
                && Configured() && old(lockFile.owner) == None
                && SomeTurnRaises(old(store.notifications), includeHeld, store.policy, world)
    {
      if !Configured() {
        return Unconfigured(Remaining());
      }
      var lock := new RunLock(lockFile, token);
      var ok := lock.Acquire();
      if !ok {
        return Busy(Remaining());
      }
      var policy := LoadPolicy(store.policy);
      var queue := SelectedIds(store.notifications, includeHeld);
      RaisesExactly(store.notifications, queue, |queue|, Mode(includeHeld, policy), world);
      var counts, stop := DrainRows(queue, includeHeld, policy, world);
      lock.Release();
      result := if stop == Raised then Aborted else Finished(counts, Remaining(), stop == RateLimited);
    }

    /** The loop of a drain over the rows it has selected. */
    method DrainRows(queue: seq<nat>, includeHeld: bool, policy: Policy, world: nat -> Reading)
      returns (counts: Counts, stop: Stop)
      requires Queue(queue, store.notifications)
      modifies this`posted, store`notifications
      ensures var p := Drained(old(store.notifications), queue, |queue|, Mode(includeHeld, policy), world);
              Tracks(p, store.notifications, counts, stop) && posted == old(posted) + p.posts
    {
      counts, stop := Counts(0, 0, 0, 0, map[]), Running;
      var rows := store.notifications;
      ghost var mode := Mode(includeHeld, policy);
      ghost var p := Start(rows);
      var k := 0;
      while k < |queue| && stop == Running
        invariant k <= |queue|
        invariant p == Drained(rows, queue, k, mode, world)
        invariant Tracks(p, store.notifications, counts, stop)
        invariant posted == old(posted) + p.posts
      {
        NextTurn(rows, queue, k, mode, world);
        counts, stop := TakeTurn(p, queue[k], rows[queue[k]], includeHeld, policy, world(k), counts, old(posted));
        k := k + 1;
        p := Drained(rows, queue, k, mode, world);
      }
      StoppedStays(rows, queue, k, |queue|, mode, world);
    }

    /** The body of that loop. */
    method TakeTurn(ghost p: Progress, id: nat, copy: Row, includeHeld: bool, policy: Policy, r: Reading, counts: Counts,
                    ghost base: seq<nat>)
      returns (next: Counts, stop: Stop)
      requires id < |store.notifications| && Tracks(p, store.notifications, counts, Running) && posted == base + p.posts
      modifies this`posted, store`notifications
      ensures var q := Visit(p, copy, id, Mode(includeHeld, policy), r);
              && Tracks(q, store.notifications, next, stop)
              && posted == base + q.posts
    {
      next, stop := counts, Running;
      var verdict := VerdictFor(copy, includeHeld, policy);
      if !EligibleAt(copy, r.checkedAt) {
        next := next.(deferred := next.deferred + 1);
      } else if verdict != Send {
        var held := store.MarkNotification(id, Held, Some(ReasonText(verdict)), None, false, r.recordedAt, !r.stored);
        if !held { return counts, Raised; }
        next := next.(held := next.held + 1, reasons := Bump(next.reasons, verdict));
      } else {
        posted := posted + [id];
        var answer, recorded := RecordAnswer(id, copy, r.reply, r.recordedAt, r.stored);
        if !recorded { return counts, Raised; }
        match answer {
          case Accepted(_) => next := next.(sent := next.sent + 1);
          case Limited(_) => next, stop := next.(deferred := next.deferred + 1), RateLimited;
          case Broken => stop := Raised;
          case Refused(_, _) => if copy.attempts + 1 >= MAX_ATTEMPTS { next := next.(failed := next.failed + 1); }
        }
      }
    }

    /** Write down what the sender said about row `id`, judging the attempt budget by the selected copy. */
    method RecordAnswer(id: nat, copy: Row, reply: SenderReply, now: Instant, stored: bool) returns (answer: Answer, ok: bool)
      requires id < |store.notifications|
      modifies store`notifications
      ensures answer == Read(reply) && ok == (answer.Broken? || stored)
      ensures store.notifications ==
              if stored then old(store.notifications)[id := Recorded(old(store.notifications)[id], copy, answer, now)]
              else old(store.notifications)
    {
      answer := Read(reply);
      match answer {
        case Accepted(http) =>
          ok := store.MarkNotification(id, Sent, None, http, true, now, !stored);
        case Limited(wait) =>
          ok := store.DeferNotification(id, now + wait, !stored);
        case Broken =>
          ok := true;
          assert store.notifications == store.notifications[id := store.notifications[id]];
        case Refused(error, http) =>
          if copy.attempts + 1 >= MAX_ATTEMPTS {
            ok := store.MarkNotification(id, Failed, error, http, true, now, !stored);
          } else {
            ok := store.MarkNotification(id, Pending, error, http, true, now, !stored);
          }
      }
    }

    lemma {:induction false} StoppedStays(rows: seq<Row>, queue: seq<nat>, k: nat, n: nat, mode: Mode, world: nat -> Reading)
      requires k <= n <= |queue| && Queue(queue, rows)
      requires k == n || Drained(rows, queue, k, mode, world).stop != Running
      ensures Drained(rows, queue, n, mode, world) == Drained(rows, queue, k, mode, world)
      decreases n - k
    {
      if k < n { StoppedStays(rows, queue, k, n - 1, mode, world); }
    }

    /** A test send: one row of its own, sent at once under the same lock.  Three things can raise: the insert,
        which then leaves no row; the sender or its reply, after which the row stays pending and the grant is
        free again; and the mark, which leaves the row as it was put there. */
    method EnqueueTest(draw: nat, note: string, token: nat, reply: SenderReply, now: Instant, putRaises: bool, markRaises: bool)
      returns (result: TestResult)
      requires !HasKey(store.notifications, TestKey(draw))
      modifies this`posted, store`notifications, lockFile
      ensures lockFile.owner == old(lockFile.owner)
      ensures old(store.notifications) <= store.notifications
      ensures |store.notifications| == |old(store.notifications)| + (if putRaises then 0 else 1)
      ensures result.TestUnconfigured? <==> !putRaises && !Configured() && !markRaises
      ensures result.TestBusy? <==> !putRaises && Configured() && old(lockFile.owner).Some?
      ensures result.TestAnswered? <==>
                !putRaises && Configured() && old(lockFile.owner) == None && NormalizeOutcome(reply).Some? && !markRaises
      ensures !putRaises ==>
                var newRow := Row(TestKey(draw), None, Missing, TestEmbed(note), Pending, 0, None, None, Missing, None, None);
                var row := store.notifications[|old(store.notifications)|];
                match result
                case TestUnconfigured => Marked(newRow, row, Failed, Some("no webhook configured"), None, true, now)
                case TestBusy => row == newRow
                case TestRaised => row == newRow
                case TestAnswered(sent, error) =>
                  Marked(newRow, row, if sent then Sent else Failed, error, NormalizeOutcome(reply).value.status, true, now)
      ensures result.TestAnswered? ==>
                result.sent == NormalizeOutcome(reply).value.ok && result.error == NormalizeOutcome(reply).value.err
      ensures posted == old(posted) +
                        if !putRaises && Configured() && old(lockFile.owner) == None then [|old(store.notifications)|] else []
    {
      var id := |store.notifications|;
      var put := store.NotificationPut(FreshRow(TestKey(draw), None, Missing, TestEmbed(note)), putRaises);
      if !put {
        return TestRaised;
      }
      if !Configured() {
        var failed := store.MarkNotification(id, Failed, Some("no webhook configured"), None, true, now, markRaises);
        return if failed then TestUnconfigured else TestRaised;
      }
      var lock := new RunLock(lockFile, token);
      var granted := lock.Acquire();
      if !granted {
        return TestBusy;
      }
      posted := posted + [id];
      lock.Release();
      match NormalizeOutcome(reply) {
        case None => result := TestRaised;
        case Some(outcome) =>
          var marked := store.MarkNotification(id, if outcome.ok then Sent else Failed, outcome.err, outcome.status, true, now,
                                               markRaises);
          result := if marked then TestAnswered(outcome.ok, outcome.err) else TestRaised;
      }
    }
  }

  /** The preview's tally of the rows it looks at. */
  method TallyRows(rows: seq<Row>, queue: seq<nat>, policy: Policy) returns (tally: map<Verdict, nat>)
    requires Queue(queue, rows)
    ensures tally == Tally(rows, queue, |queue|, policy)
  {
    tally := map[];
    for k := 0 to |queue|
      invariant tally == Tally(rows, queue, k, policy)
    {
      tally := Bump(tally, Decide(rows[queue[k]].eventTime, policy));
    }
  }

  /** The effect a cutoff would have on the pending rows, by verdict. */
  method CutoffEffect(rows: seq<Row>, raw: Option<Stamp>) returns (wouldSend: nat, wouldHold: nat, tally: map<Verdict, nat>)
    ensures tally == Tally(rows, SelectedIds(rows, false), |SelectedIds(rows, false)|, LoadPolicy(raw))
    ensures wouldSend == Get(tally, Send) && wouldHold == WouldHold(tally)
    ensures wouldSend + wouldHold == |SelectedIds(rows, false)|
  {
    var policy, queue := LoadPolicy(raw), SelectedIds(rows, false);
    tally := TallyRows(rows, queue, policy);
    TallyIsTotal(rows, queue, |queue|, policy);
    wouldSend, wouldHold := Get(tally, Send), WouldHold(tally);
  }
}
