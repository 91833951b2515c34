/**
 What every delivery history guarantees, over every sequence of actions of Protocol.dfy: how often a
 discovery can be accepted, what a held or sent row may still become, the attempt budget, what the
 activation policy keeps back, and how long a rate limit is respected.
 */
module DeliveryHistory {
  import opened Common
  import opened DeliveryPolicy
  import opened Outbox
  import opened Protocol

  // ---------------------------------------------------------------- one action

  /** `sent` is absorbing: no action changes a discovery row that is sent. */
  lemma SentIsForever(s: System, a: Action, i: nat)
    requires Sound(s) && IsDiscovery(s, i) && s.rows[i].status == Sent
    ensures IsDiscovery(Step(s, a), i) && Step(s, a).rows[i] == s.rows[i]
  {
    TurnRow(s, a);
  }

  /** A held discovery row changes in one way only: a drain run with `include_held` writes a reply. */
  lemma HeldMovesOnlyByReplay(s: System, a: Action, i: nat)
    requires Sound(s) && IsDiscovery(s, i) && s.rows[i].status == Held
    requires Step(s, a).rows[i] != s.rows[i]
    ensures a.Write? && TaskOf(s, a.p).Draining? && TaskOf(s, a.p).includeHeld
  {
    TurnRow(s, a);
  }

  /** While a drain holds a turn, the row of the turn is the copy it selected. */
  lemma TurnRow(s: System, a: Action)
    requires Sound(s)
    ensures (a.Choose? || a.Reply? || a.Write?) && AtTurn(s, TaskOf(s, a.p)) ==>
              var t := TaskOf(s, a.p);
              PickHolds(s, t, t.next) && SnapshotHolds(s, t)
    ensures (a.FailTest? || a.WriteTest?) ==> TestTask(s, TaskOf(s, a.p))
    ensures forall i :: 0 <= i < |s.rows| ==> Budget(s.rows[i])
  {
    if a.Choose? || a.Reply? || a.Write? {
      assert SnapshotHolds(s, TaskOf(s, a.p));
    }
    if a.FailTest? || a.WriteTest? {
      assert TestTask(s, TaskOf(s, a.p));
    }
  }

  lemma NamesStay(s: System, a: Action, i: nat)
    requires Sound(s) && i < |s.rows| && IsDiscovery(Step(s, a), i)
    ensures IsDiscovery(s, i)
  {
    TurnRow(s, a);
  }

  lemma DiscoveriesStay(s: System, a: Action, i: nat)
    requires Sound(s) && IsDiscovery(s, i)
    ensures IsDiscovery(Step(s, a), i)
  {
    TurnRow(s, a);
  }

  // ---------------------------------------------------------------- conservation of accepted posts

  function AcceptedPost(i: nat): Event -> bool { (e: Event) => e.Posted? && e.row == i && e.answer.Accepted? }

  function LostPost(i: nat): Event -> bool { (e: Event) => e.Lost? && e.row == i }

  /** 1 while the grant holder sits between hearing that row `i` was accepted and recording it. */
  function InWindow(s: System, i: nat): nat {
    if s.grant.Some? && Unrecorded(TaskOf(s, s.grant.value)) == Some(i) then 1 else 0
  }

  ghost predicate Conserved(s: System, i: nat)
    requires i < |s.rows|
  {
    Count(s.log, AcceptedPost(i)) ==
    (if s.rows[i].status == Sent then 1 else 0) + Count(s.log, LostPost(i)) + InWindow(s, i)
  }

  predicate NamesARow(e: Event) {
    !e.Selected? && !e.Ended? && !e.Refilled?
  }

  ghost predicate RowsOfLog(s: System) {
    forall k :: 0 <= k < |s.log| ==>
      && (NamesARow(s.log[k]) ==> s.log[k].row < |s.rows|)
      && (s.log[k].Refilled? ==> forall i :: i in s.log[k].rows ==> i < |s.rows|)
  }

  lemma LogCounts(s: System, e: Event, i: nat)
    ensures Count(s.log + [e], AcceptedPost(i)) == Count(s.log, AcceptedPost(i)) + (if AcceptedPost(i)(e) then 1 else 0)
    ensures Count(s.log + [e], LostPost(i)) == Count(s.log, LostPost(i)) + (if LostPost(i)(e) then 1 else 0)
  {
    FilterAppend(s.log, e, AcceptedPost(i));
    FilterAppend(s.log, e, LostPost(i));
  }

  lemma Holder(s: System, p: Pid)
    requires Sound(s) && InsideGrant(TaskOf(s, p))
    ensures s.grant == Some(p)
  {
  }

  /** The terms of the conservation that are not counts of events. */
  function Standing(s: System, i: nat): nat
    requires i < |s.rows|
  {
    (if s.rows[i].status == Sent then 1 else 0) + InWindow(s, i)
  }

  lemma EventConserves(s: System, s': System, e: Event, i: nat)
    requires i < |s.rows| && i < |s'.rows| && Conserved(s, i) && s'.log == s.log + [e]
    requires Standing(s', i) == Standing(s, i) + (if AcceptedPost(i)(e) then 1 else 0) - (if LostPost(i)(e) then 1 else 0)
    ensures Conserved(s', i)
  {
    LogCounts(s, e, i);
  }

  lemma ReplyConserves(s: System, p: Pid, reply: SenderReply, i: nat)
    requires Sound(s) && IsDiscovery(s, i) && Conserved(s, i)
    ensures Conserved(DoReply(s, p, reply), i)
  {
    var t, s' := TaskOf(s, p), DoReply(s, p, reply);
    if AtTurn(s, t) && t.phase.Posting? {
      Holder(s, p);
      EventConserves(s, s', s'.log[|s.log|], i);
    }
  }

  lemma HoldConserves(s: System, p: Pid, i: nat)
    requires Sound(s) && IsDiscovery(s, i) && Conserved(s, i) && AtTurn(s, TaskOf(s, p)) && TaskOf(s, p).phase.Holding?
    ensures Conserved(DoWrite(s, p), i)
  {
    var t := TaskOf(s, p);
    Holder(s, p);
    assert SnapshotHolds(s, t) && PickHolds(s, t, t.next);
    EventConserves(s, DoWrite(s, p), Kept(t.queue[t.next].id, t.drain), i);
  }

  lemma RecordConserves(s: System, p: Pid, i: nat)
    requires Sound(s) && IsDiscovery(s, i) && Conserved(s, i) && AtTurn(s, TaskOf(s, p)) && TaskOf(s, p).phase.Answered?
    ensures Conserved(DoWrite(s, p), i)
  {
    var t, s' := TaskOf(s, p), DoWrite(s, p);
    Holder(s, p);
    assert SnapshotHolds(s, t) && PickHolds(s, t, t.next);
    EventConserves(s, s', s'.log[|s.log|], i);
  }

  lemma WriteConserves(s: System, p: Pid, i: nat)
    requires Sound(s) && IsDiscovery(s, i) && Conserved(s, i)
    ensures Conserved(DoWrite(s, p), i)
  {
    var t := TaskOf(s, p);
    if AtTurn(s, t) && t.phase.Holding? {
      HoldConserves(s, p, i);
    } else if AtTurn(s, t) && t.phase.Answered? {
      RecordConserves(s, p, i);
    }
  }

  lemma AbortConserves(s: System, p: Pid, i: nat)
    requires Sound(s) && IsDiscovery(s, i) && Conserved(s, i)
    ensures Conserved(DoAbort(s, p), i)
  {
    var t, s' := TaskOf(s, p), DoAbort(s, p);
    if CutShort(t).Some? {
      Holder(s, p);
      EventConserves(s, s', s'.log[|s.log|], i);
    }
  }

  predicate IsQuiet(a: Action) {
    && !a.Select? && !a.Choose? && !a.Reply? && !a.Write? && !a.EndDrain? && !a.FailWrite? && !a.Abort?
    && !a.RequeueAll?
  }

  /** Selecting, choosing and ending touch no row and nothing that is in hand. */
  lemma QueueStepConserves(s: System, a: Action, i: nat)
    requires Sound(s) && IsDiscovery(s, i) && Conserved(s, i) && (a.Select? || a.Choose? || a.EndDrain?)
    ensures i < |Step(s, a).rows| && Conserved(Step(s, a), i)
  {
    var s' := Step(s, a);
    if s' != s { Holder(s, a.p); }
    if s'.log != s.log { EventConserves(s, s', s'.log[|s.log|], i); }
  }

  lemma QuietStepKeepsTheLog(s: System, a: Action)
    requires IsQuiet(a)
    ensures Step(s, a).log == s.log
  {
  }

  lemma QuietStepKeepsSent(s: System, a: Action, i: nat)
    requires Sound(s) && IsDiscovery(s, i) && IsQuiet(a)
    ensures i < |Step(s, a).rows| && (Step(s, a).rows[i].status == Sent <==> s.rows[i].status == Sent)
  {
    TurnRow(s, a);
  }

  lemma QuietStepKeepsTheWindow(s: System, a: Action, i: nat)
    requires Sound(s) && IsQuiet(a)
    ensures InWindow(Step(s, a), i) == InWindow(s, i)
  {
    var s' := Step(s, a);
    if s'.grant != s.grant || s'.tasks != s.tasks {
      assert InsideGrant(TaskOf(s, a.p)) <==> s.grant == Some(a.p);
    }
  }

  /** Steps that neither reply, nor write a reply, nor cut a process short keep the three terms apart from each other. */
  lemma QuietStepConserves(s: System, a: Action, i: nat)
    requires Sound(s) && IsDiscovery(s, i) && Conserved(s, i)
    requires IsQuiet(a)
    ensures i < |Step(s, a).rows| && Conserved(Step(s, a), i)
  {
    QuietStepKeepsTheLog(s, a);
    QuietStepKeepsSent(s, a, i);
    QuietStepKeepsTheWindow(s, a, i);
  }

  lemma RequeueConserves(s: System, i: nat)
    requires IsDiscovery(s, i) && Conserved(s, i)
    ensures Conserved(Step(s, RequeueAll), i)
  {
    LogCounts(s, Refilled(FailedIds(s.rows)), i);
  }

  lemma LoudStepConserves(s: System, a: Action, i: nat)
    requires Sound(s) && IsDiscovery(s, i) && Conserved(s, i) && !IsQuiet(a)
    ensures i < |Step(s, a).rows| && Conserved(Step(s, a), i)
  {
    if a.Reply? {
      ReplyConserves(s, a.p, a.reply, i);
    } else if a.Write? {
      WriteConserves(s, a.p, i);
    } else if a.RequeueAll? {
      RequeueConserves(s, i);
    } else if a.FailWrite? || a.Abort? {
      AbortConserves(s, a.p, i);
    } else {
      QueueStepConserves(s, a, i);
    }
  }

  lemma StepConserves(s: System, a: Action, i: nat)
    requires Sound(s) && IsDiscovery(s, i) && Conserved(s, i)
    ensures i < |Step(s, a).rows| && Conserved(Step(s, a), i)
  {
    if IsQuiet(a) { QuietStepConserves(s, a, i); } else { LoudStepConserves(s, a, i); }
  }

  lemma NewRowIsConserved(s: System, a: Action, i: nat)
    requires Sound(s) && RowsOfLog(s) && |s.rows| <= i && IsDiscovery(Step(s, a), i)
    ensures Conserved(Step(s, a), i)
  {
    var s' := Step(s, a);
    assert a.Enqueue? && i == |s.rows|;
    CountNone(s.log, AcceptedPost(i));
    CountNone(s.log, LostPost(i));
    NothingInHand(s, i);
  }

  lemma LogNamesRows(s: System, a: Action)
    requires Sound(s) && RowsOfLog(s)
    ensures RowsOfLog(Step(s, a))
  {
    TurnRow(s, a);
    if (a.FailWrite? || a.Abort?) && CutShort(TaskOf(s, a.p)).Some? {
      var t := TaskOf(s, a.p);
      assert SnapshotHolds(s, t) && PickHolds(s, t, t.next);
    }
  }

  // ---------------------------------------------------------------- the attempt budget

  /** The events since row `i` was last requeued. */
  function SinceRefill(log: seq<Event>, i: nat): (rest: seq<Event>)
    ensures forall e :: e in rest ==> e in log
  {
    if log == [] then []
    else
      var e := log[|log| - 1];
      if e.Refilled? && i in e.rows then [] else SinceRefill(log[..|log| - 1], i) + [e]
  }

  function CountedPost(i: nat): Event -> bool { (e: Event) => e.Counted? && e.row == i }

  /** Posts recorded against row `i` since it was last requeued.  A 429 is not recorded. */
  function Spent(log: seq<Event>, i: nat): nat {
    Count(SinceRefill(log, i), CountedPost(i))
  }

  ghost predicate SpentIsAttempts(s: System) {
    forall i: nat :: IsDiscovery(s, i) ==> Spent(s.log, i) == s.rows[i].attempts
  }

  lemma SinceAppend(log: seq<Event>, e: Event, i: nat)
    ensures SinceRefill(log + [e], i) == if e.Refilled? && i in e.rows then [] else SinceRefill(log, i) + [e]
  {
    assert (log + [e])[..|log|] == log;
  }

  lemma SpentAppend(log: seq<Event>, e: Event, i: nat)
    ensures Spent(log + [e], i) ==
            if e.Refilled? && i in e.rows then 0 else Spent(log, i) + (if e.Counted? && e.row == i then 1 else 0)
  {
    SinceAppend(log, e, i);
    FilterAppend(SinceRefill(log, i), e, CountedPost(i));
  }

  lemma NoneSince(log: seq<Event>, i: nat, f: Event -> bool)
    requires forall k :: 0 <= k < |log| ==> !f(log[k])
    ensures Count(SinceRefill(log, i), f) == 0
  {
    var since := SinceRefill(log, i);
    forall k | 0 <= k < |since| ensures !f(since[k]) {
      assert since[k] in since;
      assert since[k] in log;
    }
    CountNone(since, f);
  }

  lemma NothingSpent(log: seq<Event>, i: nat)
    requires forall k :: 0 <= k < |log| ==> (log[k].Counted? ==> log[k].row != i)
    ensures Spent(log, i) == 0
  {
    NoneSince(log, i, CountedPost(i));
  }

  lemma SpentStep(s: System, a: Action, i: nat)
    requires Sound(s) && RowsOfLog(s) && SpentIsAttempts(s) && IsDiscovery(Step(s, a), i)
    ensures Spent(Step(s, a).log, i) == Step(s, a).rows[i].attempts
  {
    if i < |s.rows| {
      NamesStay(s, a, i);
      OldRowSpends(s, a, i);
    } else {
      NewRowHasSpentNothing(s, a, i);
    }
  }

  lemma WriteSpends(s: System, p: Pid, i: nat)
    requires Sound(s) && IsDiscovery(s, i) && Spent(s.log, i) == s.rows[i].attempts
    ensures Spent(DoWrite(s, p).log, i) == DoWrite(s, p).rows[i].attempts
  {
    var t := TaskOf(s, p);
    if AtTurn(s, t) && t.phase.Holding? {
      SpentAppend(s.log, Kept(t.queue[t.next].id, t.drain), i);
    } else if AtTurn(s, t) && t.phase.Answered? {
      RecordSpends(s, p, i);
    }
  }

  lemma RecordSpends(s: System, p: Pid, i: nat)
    requires Sound(s) && IsDiscovery(s, i) && Spent(s.log, i) == s.rows[i].attempts
    requires AtTurn(s, TaskOf(s, p)) && TaskOf(s, p).phase.Answered?
    ensures Spent(DoWrite(s, p).log, i) == DoWrite(s, p).rows[i].attempts
  {
    var t, s' := TaskOf(s, p), DoWrite(s, p);
    assert SnapshotHolds(s, t) && PickHolds(s, t, t.next);
    SpentAppend(s.log, s'.log[|s.log|], i);
  }

  lemma QuietStepSpends(s: System, a: Action, i: nat)
    requires Sound(s) && IsDiscovery(s, i) && Spent(s.log, i) == s.rows[i].attempts && IsQuiet(a)
    ensures i < |Step(s, a).rows| && Spent(Step(s, a).log, i) == Step(s, a).rows[i].attempts
  {
    QuietStepKeepsTheLog(s, a);
    TurnRow(s, a);
  }

  /** Steps that log an event other than a recorded post. */
  lemma LoudStepSpends(s: System, a: Action, i: nat)
    requires IsDiscovery(s, i) && Spent(s.log, i) == s.rows[i].attempts && !IsQuiet(a) && !a.Write?
    ensures i < |Step(s, a).rows| && Spent(Step(s, a).log, i) == Step(s, a).rows[i].attempts
  {
    if a.RequeueAll? {
      SpentAppend(s.log, Refilled(FailedIds(s.rows)), i);
    } else {
      UncountedStep(s, a);
      var s' := Step(s, a);
      if s'.log != s.log { SpentAppend(s.log, s'.log[|s.log|], i); }
    }
  }

  lemma UncountedStep(s: System, a: Action)
    requires !IsQuiet(a) && !a.Write? && !a.RequeueAll?
    ensures var s' := Step(s, a);
            && s'.rows == s.rows
            && (s'.log != s.log ==>
                  |s'.log| == |s.log| + 1 && s'.log == s.log + [s'.log[|s.log|]]
                  && !s'.log[|s.log|].Counted? && !s'.log[|s.log|].Refilled?)
  {
  }

  lemma OldRowSpends(s: System, a: Action, i: nat)
    requires Sound(s) && IsDiscovery(s, i) && Spent(s.log, i) == s.rows[i].attempts
    ensures i < |Step(s, a).rows| && Spent(Step(s, a).log, i) == Step(s, a).rows[i].attempts
  {
    if a.Write? {
      WriteSpends(s, a.p, i);
    } else if IsQuiet(a) {
      QuietStepSpends(s, a, i);
    } else {
      LoudStepSpends(s, a, i);
    }
  }

  lemma NewRowHasSpentNothing(s: System, a: Action, i: nat)
    requires RowsOfLog(s) && |s.rows| <= i && IsDiscovery(Step(s, a), i)
    ensures Spent(Step(s, a).log, i) == Step(s, a).rows[i].attempts
  {
    assert a.Enqueue?;
    NothingSpent(s.log, i);
  }

  // ---------------------------------------------------------------- answers and records

  /** A post the sender answered with an acceptance or a refusal: one the drain means to record. */
  function AnsweredPost(i: nat): Event -> bool {
    (e: Event) => e.Posted? && e.row == i && (e.answer.Accepted? || e.answer.Refused?)
  }

  function DroppedPost(i: nat): Event -> bool { (e: Event) => e.Dropped? && e.row == i }

  /** 1 while the grant holder sits between such an answer about row `i` and its record. */
  function Unwritten(s: System, i: nat): nat {
    if s.grant.Some? && AwaitsWrite(TaskOf(s, s.grant.value), i) then 1 else 0
  }

  predicate AwaitsWrite(t: Task, i: nat) {
    t.Draining? && t.next < |t.queue| && t.queue[t.next].id == i && t.phase.Answered? && !t.phase.answer.Limited?
  }

  /** Since its last requeue every answered post of row `i` was recorded, or its process was cut short before
      that, or is about to record it. */
  ghost predicate Balanced(s: System, i: nat) {
    var since := SinceRefill(s.log, i);
    Count(since, AnsweredPost(i)) ==
    Spent(s.log, i) + Count(since, LostPost(i)) + Count(since, DroppedPost(i)) + Unwritten(s, i)
  }

  /** What one more event adds to the two sides of that equation. */
  function Adds(e: Event, i: nat): int {
    (if AnsweredPost(i)(e) then 1 else 0) - (if CountedPost(i)(e) || LostPost(i)(e) || DroppedPost(i)(e) then 1 else 0)
  }

  lemma EventBalances(s: System, s': System, e: Event, i: nat)
    requires Balanced(s, i) && s'.log == s.log + [e] && !(e.Refilled? && i in e.rows)
    requires Unwritten(s', i) == Unwritten(s, i) + Adds(e, i)
    ensures Balanced(s', i)
  {
    var since := SinceRefill(s.log, i);
    SinceAppend(s.log, e, i);
    FilterAppend(since, e, AnsweredPost(i));
    FilterAppend(since, e, CountedPost(i));
    FilterAppend(since, e, LostPost(i));
    FilterAppend(since, e, DroppedPost(i));
  }

  lemma ReplyBalances(s: System, p: Pid, reply: SenderReply, i: nat)
    requires Sound(s) && Balanced(s, i)
    ensures Balanced(DoReply(s, p, reply), i)
  {
    var t, s' := TaskOf(s, p), DoReply(s, p, reply);
    if AtTurn(s, t) && t.phase.Posting? {
      Holder(s, p);
      EventBalances(s, s', s'.log[|s.log|], i);
    }
  }

  lemma WriteBalances(s: System, p: Pid, i: nat)
    requires Sound(s) && Balanced(s, i)
    ensures Balanced(DoWrite(s, p), i)
  {
    var t, s' := TaskOf(s, p), DoWrite(s, p);
    if AtTurn(s, t) && t.phase.Holding? {
      Holder(s, p);
      EventBalances(s, s', Kept(t.queue[t.next].id, t.drain), i);
    } else if AtTurn(s, t) && t.phase.Answered? {
      Holder(s, p);
      assert SnapshotHolds(s, t);
      EventBalances(s, s', s'.log[|s.log|], i);
    }
  }

  lemma AbortBalances(s: System, p: Pid, i: nat)
    requires Sound(s) && Balanced(s, i)
    ensures Balanced(DoAbort(s, p), i)
  {
    var t, s' := TaskOf(s, p), DoAbort(s, p);
    assert SnapshotHolds(s, t);
    if CutShort(t).Some? {
      Holder(s, p);
      EventBalances(s, s', CutShort(t).value, i);
    }
  }

  /** A requeue refreshes failed rows only, and no drain has one of those in hand. */
  lemma FailedIsNotInHand(s: System, i: nat)
    requires Sound(s) && IsDiscovery(s, i) && s.rows[i].status == Failed
    ensures Unwritten(s, i) == 0
  {
    if s.grant.Some? {
      var t := TaskOf(s, s.grant.value);
      assert SnapshotHolds(s, t);
      assert t.Draining? && t.next < |t.queue| ==> PickHolds(s, t, t.next);
    }
  }

  lemma RequeueBalances(s: System, i: nat)
    requires Sound(s) && IsDiscovery(s, i) && Balanced(s, i)
    ensures Balanced(Step(s, RequeueAll), i)
  {
    var s', e := Step(s, RequeueAll), Refilled(FailedIds(s.rows));
    assert Unwritten(s', i) == Unwritten(s, i);
    if i in FailedIds(s.rows) {
      FailedIsNotInHand(s, i);
      SinceAppend(s.log, e, i);
    } else {
      EventBalances(s, s', e, i);
    }
  }

  lemma QuietStepKeepsTheHand(s: System, a: Action, i: nat)
    requires Sound(s) && IsQuiet(a)
    ensures Unwritten(Step(s, a), i) == Unwritten(s, i)
  {
    var s' := Step(s, a);
    if s'.grant != s.grant || s'.tasks != s.tasks {
      assert InsideGrant(TaskOf(s, a.p)) <==> s.grant == Some(a.p);
    }
  }

  lemma QueueStepBalances(s: System, a: Action, i: nat)
    requires Sound(s) && Balanced(s, i) && (a.Select? || a.Choose? || a.EndDrain?)
    ensures Balanced(Step(s, a), i)
  {
    var s' := Step(s, a);
    if s' != s { Holder(s, a.p); }
    if s'.log != s.log { EventBalances(s, s', s'.log[|s.log|], i); }
  }

  lemma QuietStepBalances(s: System, a: Action, i: nat)
    requires Sound(s) && Balanced(s, i) && IsQuiet(a)
    ensures Balanced(Step(s, a), i)
  {
    QuietStepKeepsTheLog(s, a);
    QuietStepKeepsTheHand(s, a, i);
  }

  lemma LoudStepBalances(s: System, a: Action, i: nat)
    requires Sound(s) && IsDiscovery(s, i) && Balanced(s, i) && !IsQuiet(a)
    ensures Balanced(Step(s, a), i)
  {
    match a
    case Reply(p, reply) => ReplyBalances(s, p, reply, i);
    case Write(p) => WriteBalances(s, p, i);
    case RequeueAll => RequeueBalances(s, i);
    case FailWrite(p) => AbortBalances(s, p, i);
    case Abort(p) => AbortBalances(s, p, i);
    case _ => QueueStepBalances(s, a, i);
  }

  lemma StepBalances(s: System, a: Action, i: nat)
    requires Sound(s) && IsDiscovery(s, i) && Balanced(s, i)
    ensures Balanced(Step(s, a), i)
  {
    if IsQuiet(a) { QuietStepBalances(s, a, i); } else { LoudStepBalances(s, a, i); }
  }

  lemma NewRowIsBalanced(s: System, a: Action, i: nat)
    requires Sound(s) && RowsOfLog(s) && |s.rows| <= i && IsDiscovery(Step(s, a), i)
    ensures Balanced(Step(s, a), i)
  {
    assert a.Enqueue?;
    NothingInHand(s, i);
    UnknownRowIsBalanced(s, i);
  }

  lemma UnknownRowIsBalanced(s: System, i: nat)
    requires forall k :: 0 <= k < |s.log| && NamesARow(s.log[k]) ==> s.log[k].row != i
    requires Unwritten(s, i) == 0
    ensures Balanced(s, i)
  {
    NoneSince(s.log, i, AnsweredPost(i));
    NoneSince(s.log, i, CountedPost(i));
    NoneSince(s.log, i, LostPost(i));
    NoneSince(s.log, i, DroppedPost(i));
  }

  lemma NothingInHand(s: System, i: nat)
    requires Sound(s) && |s.rows| <= i
    ensures Unwritten(s, i) == 0 && InWindow(s, i) == 0
  {
    if s.grant.Some? {
      var t := TaskOf(s, s.grant.value);
      assert SnapshotHolds(s, t);
      assert t.Draining? && t.next < |t.queue| ==> PickHolds(s, t, t.next);
    }
  }

  // ---------------------------------------------------------------- the activation policy

  ghost predicate PolicyKept(s: System) {
    forall k :: 0 <= k < |s.log| && s.log[k].Posted? && !s.log[k].includeHeld ==>
      s.log[k].row < |s.rows| && Cleared(s.rows[s.log[k].row].eventTime, s.log[k].raw)
  }

  /** Posts of the later state that are posts of the earlier one, at the same place. */
  ghost predicate NoNewPosts(s: System, s': System) {
    forall k :: 0 <= k < |s'.log| && s'.log[k].Posted? ==> k < |s.log| && s'.log[k] == s.log[k]
  }

  lemma OtherStepsAddNoPosts(s: System, a: Action)
    requires !a.Reply?
    ensures NoNewPosts(s, Step(s, a)) && s.drains <= Step(s, a).drains
  {
  }

  lemma PolicyAtReply(s: System, p: Pid, reply: SenderReply)
    requires Sound(s) && PolicyKept(s)
    ensures PolicyKept(DoReply(s, p, reply))
  {
    var t := TaskOf(s, p);
    if AtTurn(s, t) && t.phase.Posting? {
      assert SnapshotHolds(s, t) && PickHolds(s, t, t.next);
      FailsClosed(t.queue[t.next].copy.eventTime, t.raw);
    }
  }

  lemma EventTimesStay(s: System, a: Action, i: nat)
    requires Sound(s) && i < |s.rows|
    ensures i < |Step(s, a).rows| && Step(s, a).rows[i].eventTime == s.rows[i].eventTime
  {
    TurnRow(s, a);
  }

  lemma PolicyStep(s: System, a: Action)
    requires Sound(s) && RowsOfLog(s) && PolicyKept(s)
    ensures PolicyKept(Step(s, a))
  {
    if a.Reply? {
      PolicyAtReply(s, a.p, a.reply);
    } else {
      var s' := Step(s, a);
      OtherStepsAddNoPosts(s, a);
      forall k | 0 <= k < |s'.log| && s'.log[k].Posted? && !s'.log[k].includeHeld
        ensures s'.log[k].row < |s'.rows| && Cleared(s'.rows[s'.log[k].row].eventTime, s'.log[k].raw)
      {
        EventTimesStay(s, a, s.log[k].row);
      }
    }
  }

  // ---------------------------------------------------------------- one 429 per drain

  predicate Unlimited(t: Task)
    requires t.Draining?
  {
    t.phase.Choosing? || t.phase.Holding? || t.phase.Posting? || (t.phase.Answered? && !t.phase.answer.Limited?)
  }

  ghost predicate DrainNotLimited(log: seq<Event>, drain: nat) {
    forall k :: 0 <= k < |log| && log[k].Posted? && log[k].drain == drain ==> !log[k].answer.Limited?
  }

  ghost predicate OneLimitPerDrain(s: System) {
    && (forall j, k :: 0 <= j < k < |s.log| && s.log[j].Posted? && s.log[k].Posted? && s.log[j].drain == s.log[k].drain ==>
          !s.log[j].answer.Limited?)
    && (forall k :: 0 <= k < |s.log| && s.log[k].Posted? ==> s.log[k].drain < s.drains)
    && (forall p: Pid :: DrainKnown(s, TaskOf(s, p)))
  }

  ghost predicate DrainKnown(s: System, t: Task) {
    t.Draining? ==> t.drain < s.drains && (Unlimited(t) ==> DrainNotLimited(s.log, t.drain))
  }

  lemma LimitReply(s: System, p: Pid, reply: SenderReply)
    requires Sound(s) && OneLimitPerDrain(s)
    ensures OneLimitPerDrain(DoReply(s, p, reply))
  {
    var t, s' := TaskOf(s, p), DoReply(s, p, reply);
    if AtTurn(s, t) && t.phase.Posting? {
      assert DrainKnown(s, t);
      assert s'.log == s.log + [s'.log[|s.log|]];
      Holder(s, p);
      forall q: Pid ensures DrainKnown(s', TaskOf(s', q)) {
        assert InsideGrant(TaskOf(s, q)) <==> s.grant == Some(q);
      }
    }
  }

  lemma LimitWrite(s: System, p: Pid)
    requires OneLimitPerDrain(s)
    ensures OneLimitPerDrain(DoWrite(s, p))
  {
    var s' := DoWrite(s, p);
    forall k | 0 <= k < |s'.log| && s'.log[k].Posted? ensures k < |s.log| && s'.log[k] == s.log[k] {
    }
    forall q: Pid ensures DrainKnown(s', TaskOf(s', q)) {
      assert DrainKnown(s, TaskOf(s, q));
    }
  }

  lemma DrainStaysKnown(s: System, a: Action, q: Pid)
    requires OneLimitPerDrain(s) && !a.Reply? && !a.Write? && NoNewPosts(s, Step(s, a))
    ensures DrainKnown(Step(s, a), TaskOf(Step(s, a), q))
  {
    assert DrainKnown(s, TaskOf(s, q));
  }

  lemma LimitOther(s: System, a: Action)
    requires OneLimitPerDrain(s) && !a.Reply? && !a.Write?
    ensures OneLimitPerDrain(Step(s, a))
  {
    OtherStepsAddNoPosts(s, a);
    forall q: Pid ensures DrainKnown(Step(s, a), TaskOf(Step(s, a), q)) {
      DrainStaysKnown(s, a, q);
    }
  }

  lemma LimitStep(s: System, a: Action)
    requires Sound(s) && OneLimitPerDrain(s)
    ensures OneLimitPerDrain(Step(s, a))
  {
    match a
    case Reply(p, reply) => LimitReply(s, p, reply);
    case Write(p) => LimitWrite(s, p);
    case _ => LimitOther(s, a);
  }

  // ---------------------------------------------------------------- retry floors

  ghost predicate Forward(s: System, a: Action) {
    a.Tick? ==> s.now <= a.to
  }

  /** The floor is still written on the row, and nothing but a post can take it away. */
  predicate Guarded(row: Row, floor: Instant) {
    row.notBefore.At? && floor <= row.notBefore.instant && (row.status == Pending || row.status == Held)
  }

  predicate Deferral(s: System, k: nat)
  {
    k < |s.log| && s.log[k].Deferred? && s.log[k].row < |s.rows| && s.rows[s.log[k].row].discoveryId.Some?
  }

  ghost predicate FloorStands(s: System, k: nat)
    requires Deferral(s, k)
  {
    var e := s.log[k];
    e.answeredAt + e.wait <= e.floor && (e.floor <= s.now || Guarded(s.rows[e.row], e.floor))
  }

  /** Whoever is posting row `i` looked at the clock after every floor the row ever had. */
  ghost predicate PostingAfterFloors(s: System, t: Task) {
    t.Draining? && t.next < |t.queue| && (t.phase.Posting? || t.phase.Answered?) ==>
      && t.phase.startedAt <= s.now
      && (t.phase.Answered? ==> t.phase.answeredAt <= s.now)
      && (forall k: nat :: Deferral(s, k) && s.log[k].row == t.queue[t.next].id ==> s.log[k].floor <= t.phase.startedAt)
  }

  ghost predicate FloorsRespected(s: System) {
    && (forall k: nat :: Deferral(s, k) ==> FloorStands(s, k))
    && (forall p: Pid :: PostingAfterFloors(s, TaskOf(s, p)))
    && (forall j: nat, k: nat :: Deferral(s, j) && j < k < |s.log| && s.log[k].Posted? && s.log[k].row == s.log[j].row ==>
          s.log[j].floor <= s.log[k].startedAt)
  }

  lemma FloorsAtChoose(s: System, p: Pid)
    requires Sound(s) && FloorsRespected(s)
    ensures FloorsRespected(DoChoose(s, p))
  {
    var t, s' := TaskOf(s, p), DoChoose(s, p);
    if AtTurn(s, t) && t.phase == Choosing {
      assert SnapshotHolds(s, t) && PickHolds(s, t, t.next);
      forall k: nat | Deferral(s', k) ensures FloorStands(s', k) {
        assert Deferral(s, k) && FloorStands(s, k);
      }
      forall q: Pid ensures PostingAfterFloors(s', TaskOf(s', q)) {
        assert PostingAfterFloors(s, TaskOf(s, q));
        forall k: nat | Deferral(s', k) ensures Deferral(s, k) && FloorStands(s, k) {
        }
      }
      forall j: nat, k: nat | Deferral(s', j) && j < k < |s'.log| && s'.log[k].Posted? && s'.log[k].row == s'.log[j].row
        ensures s'.log[j].floor <= s'.log[k].startedAt
      {
        assert Deferral(s, j);
      }
    }
  }

  lemma FloorsAtReply(s: System, p: Pid, reply: SenderReply)
    requires Sound(s) && RowsOfLog(s) && FloorsRespected(s)
    ensures FloorsRespected(DoReply(s, p, reply))
  {
    var t, s' := TaskOf(s, p), DoReply(s, p, reply);
    if AtTurn(s, t) && t.phase.Posting? {
      assert PostingAfterFloors(s, t);
      forall k: nat | Deferral(s', k) ensures Deferral(s, k) && FloorStands(s, k) && s'.log[k] == s.log[k] {
        assert Deferral(s, k);
      }
      forall q: Pid ensures PostingAfterFloors(s', TaskOf(s', q)) {
        assert PostingAfterFloors(s, TaskOf(s, q));
      }
    }
  }

  lemma FloorsAtWrite(s: System, p: Pid)
    requires Sound(s) && RowsOfLog(s) && FloorsRespected(s)
    ensures FloorsRespected(DoWrite(s, p))
  {
    var t, s' := TaskOf(s, p), DoWrite(s, p);
    if AtTurn(s, t) && (t.phase.Holding? || t.phase.Answered?) {
      assert SnapshotHolds(s, t) && PickHolds(s, t, t.next);
      assert PostingAfterFloors(s, t);
      var n := |s.log|;
      if t.phase.Answered? { assert s'.log == s.log + [s'.log[n]]; }
      forall k: nat | Deferral(s', k) ensures FloorStands(s', k) {
        if k < n {
          assert Deferral(s, k) && FloorStands(s, k);
        }
      }
      Holder(s, p);
      forall q: Pid ensures PostingAfterFloors(s', TaskOf(s', q)) {
        assert PostingAfterFloors(s, TaskOf(s, q));
        assert InsideGrant(TaskOf(s, q)) <==> s.grant == Some(q);
      }
      forall j: nat, k: nat | Deferral(s', j) && j < k < |s'.log| && s'.log[k].Posted? && s'.log[k].row == s'.log[j].row
        ensures s'.log[j].floor <= s'.log[k].startedAt
      {
        assert j < n && k < n && Deferral(s, j);
      }
    }
  }

  ghost predicate SamePosts(s: System, s': System) {
    && |s.log| <= |s'.log|
    && (forall k: nat :: k < |s.log| ==> s'.log[k] == s.log[k])
    && (forall k: nat :: |s.log| <= k < |s'.log| ==> !s'.log[k].Posted? && !s'.log[k].Deferred?)
    && (forall p: Pid :: var t := TaskOf(s', p);
          t.Draining? && (t.phase.Posting? || t.phase.Answered?) ==> t == TaskOf(s, p))
  }

  lemma FloorsFrame(s: System, s': System)
    requires FloorsRespected(s) && RowsOfLog(s) && SamePosts(s, s') && s.now <= s'.now
    requires Grows(s.rows, s'.rows) && OnlySettledRowsChange(s.rows, s'.rows)
    ensures FloorsRespected(s')
  {
    forall k: nat | Deferral(s', k) ensures Deferral(s, k) && FloorStands(s', k) {
      assert s'.log[k] == s.log[k];
      assert Deferral(s, k) && FloorStands(s, k);
    }
    forall q: Pid ensures PostingAfterFloors(s', TaskOf(s', q)) {
      assert PostingAfterFloors(s, TaskOf(s, q));
    }
  }

  lemma OtherStepsKeepPosts(s: System, a: Action)
    requires Forward(s, a) && !a.Choose? && !a.Reply? && !a.Write?
    ensures SamePosts(s, Step(s, a)) && s.now <= Step(s, a).now
  {
  }

  lemma OtherStepsKeepRows(s: System, a: Action)
    requires Sound(s) && !a.Choose? && !a.Reply? && !a.Write?
    ensures Grows(s.rows, Step(s, a).rows) && OnlySettledRowsChange(s.rows, Step(s, a).rows)
  {
    TurnRow(s, a);
  }

  lemma OtherStepsFrame(s: System, a: Action)
    requires Sound(s) && Forward(s, a) && !a.Choose? && !a.Reply? && !a.Write?
    ensures var s' := Step(s, a);
            && SamePosts(s, s') && s.now <= s'.now
            && Grows(s.rows, s'.rows) && OnlySettledRowsChange(s.rows, s'.rows)
  {
    OtherStepsKeepPosts(s, a);
    OtherStepsKeepRows(s, a);
  }

  lemma FloorStep(s: System, a: Action)
    requires Sound(s) && RowsOfLog(s) && FloorsRespected(s) && Forward(s, a)
    ensures FloorsRespected(Step(s, a))
  {
    match a
    case Choose(p) => FloorsAtChoose(s, p);
    case Reply(p, reply) => FloorsAtReply(s, p, reply);
    case Write(p) => FloorsAtWrite(s, p);
    case _ =>
      OtherStepsFrame(s, a);
      FloorsFrame(s, Step(s, a));
  }

  // ---------------------------------------------------------------- whole histories

  ghost predicate Delivering(s: System) {
    && Sound(s) && RowsOfLog(s) && SpentIsAttempts(s) && PolicyKept(s) && OneLimitPerDrain(s)
    && (forall i: nat :: IsDiscovery(s, i) ==> Conserved(s, i) && Balanced(s, i))
  }

  lemma RowStaysAccounted(s: System, a: Action, i: nat)
    requires Sound(s) && RowsOfLog(s) && SpentIsAttempts(s) && (IsDiscovery(s, i) ==> Conserved(s, i) && Balanced(s, i))
    requires IsDiscovery(Step(s, a), i)
    ensures Conserved(Step(s, a), i) && Balanced(Step(s, a), i)
  {
    if i < |s.rows| {
      NamesStay(s, a, i);
      StepConserves(s, a, i);
      StepBalances(s, a, i);
    } else {
      NewRowIsConserved(s, a, i);
      NewRowIsBalanced(s, a, i);
    }
  }

  lemma RowsStayAccounted(s: System, a: Action)
    requires Delivering(s)
    ensures SpentIsAttempts(Step(s, a))
    ensures forall i: nat :: IsDiscovery(Step(s, a), i) ==> Conserved(Step(s, a), i) && Balanced(Step(s, a), i)
  {
    forall i: nat | IsDiscovery(Step(s, a), i)
      ensures Conserved(Step(s, a), i) && Balanced(Step(s, a), i) && Spent(Step(s, a).log, i) == Step(s, a).rows[i].attempts
    {
      SpentStep(s, a, i);
      RowStaysAccounted(s, a, i);
    }
  }

  lemma StepDelivers(s: System, a: Action)
    requires Delivering(s)
    ensures Delivering(Step(s, a))
  {
    StepIsSound(s, a);
    LogNamesRows(s, a);
    PolicyStep(s, a);
    LimitStep(s, a);
    RowsStayAccounted(s, a);
  }

  lemma {:induction false} RunDelivers(s: System, actions: seq<Action>)
    requires Delivering(s)
    ensures Delivering(Run(s, actions))
    decreases |actions|
  {
    if actions != [] {
      StepDelivers(s, actions[0]);
      RunDelivers(Step(s, actions[0]), actions[1..]);
    }
  }

  lemma InitiallyDelivering(s: System)
    requires Initial(s)
    ensures Delivering(s) && FloorsRespected(s)
  {
  }

  /** Accepted posts of a discovery = 1 if it is marked sent, plus one for each process cut short between an
      acceptance and its mark, plus 1 while the grant holder sits in that window.  So unless a process died
      there or its mark raised, the sender returns Ok for a discovery at most once, whatever else interleaves. */
  lemma AcceptedPostsAreConserved(s0: System, actions: seq<Action>, i: nat)
    requires Initial(s0) && IsDiscovery(Run(s0, actions), i)
    ensures var s := Run(s0, actions);
            && Count(s.log, AcceptedPost(i)) ==
               (if s.rows[i].status == Sent then 1 else 0) + Count(s.log, LostPost(i)) + InWindow(s, i)
            && Count(s.log, AcceptedPost(i)) <= 1 + Count(s.log, LostPost(i))
  {
    InitiallyDelivering(s0);
    RunDelivers(s0, actions);
    var s := Run(s0, actions);
    assert Conserved(s, i);
    if InWindow(s, i) == 1 {
      var t := TaskOf(s, s.grant.value);
      assert SnapshotHolds(s, t) && PickHolds(s, t, t.next);
    }
  }

  // ---------------------------------------------------------------- acceptances at the far end

  function AbandonedPost(i: nat): Event -> bool { (e: Event) => e.Abandoned? && e.row == i }

  function BrokenPost(i: nat): Event -> bool { (e: Event) => e.Posted? && e.row == i && e.answer.Broken? }

  /** A post of row `i` that may have got through although the program never heard so: it was cut short, it was
      refused (the refusal may be a timeout, or a connection lost after the message was taken), or its reply
      could not be read. */
  function DoubtfulPost(i: nat): Event -> bool {
    (e: Event) => (e.Abandoned? && e.row == i) || (e.Posted? && e.row == i && (e.answer.Refused? || e.answer.Broken?))
  }

  /** Acceptances of row `i` at the far end: those the sender returned, and those of the doubtful posts that got
      through; `through(k)` says whether the one that is event `k` did. */
  function FarAcceptances(log: seq<Event>, i: nat, through: nat -> bool): nat {
    if log == [] then 0
    else
      var k := |log| - 1;
      FarAcceptances(log[..k], i, through) +
      if AcceptedPost(i)(log[k]) || (DoubtfulPost(i)(log[k]) && through(k)) then 1 else 0
  }

  /** Every doubtful post got through. */
  function Everything(): nat -> bool { (k: nat) => true }

  lemma {:induction false} FarAcceptancesAreCounted(log: seq<Event>, i: nat, through: nat -> bool)
    ensures FarAcceptances(log, i, through) <= Count(log, AcceptedPost(i)) + Count(log, DoubtfulPost(i))
    ensures (forall k :: through(k)) ==>
              FarAcceptances(log, i, through) == Count(log, AcceptedPost(i)) + Count(log, DoubtfulPost(i))
  {
    if log != [] {
      var front, last := log[..|log| - 1], log[|log| - 1];
      FarAcceptancesAreCounted(front, i, through);
      assert log == front + [last];
      FilterAppend(front, last, AcceptedPost(i));
      FilterAppend(front, last, DoubtfulPost(i));
    }
  }

  /** Whatever became of the doubtful posts, a discovery is accepted at the far end at most once more than
      processes were cut short between its acceptance and its mark and posts of it were doubtful.  It is at
      most once, come what may, exactly when there is at most one post in all that was accepted or doubtful. */
  lemma FarAcceptancesAreBounded(s0: System, actions: seq<Action>, i: nat, through: nat -> bool)
    requires Initial(s0) && IsDiscovery(Run(s0, actions), i)
    ensures var log := Run(s0, actions).log;
            FarAcceptances(log, i, through) <= 1 + Count(log, LostPost(i)) + Count(log, DoubtfulPost(i))
    ensures var log := Run(s0, actions).log;
            (forall any: nat -> bool :: FarAcceptances(log, i, any) <= 1) <==>
            Count(log, AcceptedPost(i)) + Count(log, DoubtfulPost(i)) <= 1
  {
    AcceptedPostsAreConserved(s0, actions, i);
    var log := Run(s0, actions).log;
    FarAcceptancesAreCounted(log, i, through);
    FarAcceptancesAreCounted(log, i, Everything());
    forall any: nat -> bool
      ensures FarAcceptances(log, i, any) <= Count(log, AcceptedPost(i)) + Count(log, DoubtfulPost(i))
    {
      FarAcceptancesAreCounted(log, i, any);
    }
  }

  lemma {:induction false} DoubtfulPostsSplit(log: seq<Event>, i: nat)
    ensures Count(log, AcceptedPost(i)) + Count(log, DoubtfulPost(i)) ==
            Count(log, AnsweredPost(i)) + Count(log, BrokenPost(i)) + Count(log, AbandonedPost(i))
  {
    if log != [] {
      var front, last := log[..|log| - 1], log[|log| - 1];
      DoubtfulPostsSplit(front, i);
      assert log == front + [last];
      FilterAppend(front, last, AcceptedPost(i));
      FilterAppend(front, last, DoubtfulPost(i));
      FilterAppend(front, last, AnsweredPost(i));
      FilterAppend(front, last, BrokenPost(i));
      FilterAppend(front, last, AbandonedPost(i));
    }
  }

  lemma {:induction false} SinceIsPart(log: seq<Event>, i: nat, f: Event -> bool)
    ensures Count(SinceRefill(log, i), f) <= Count(log, f)
  {
    if log != [] {
      var front, last := log[..|log| - 1], log[|log| - 1];
      SinceIsPart(front, i, f);
      assert log == front + [last];
      SinceAppend(front, last, i);
      FilterAppend(front, last, f);
      FilterAppend(SinceRefill(front, i), last, f);
    }
  }

  /** And between requeues: at most five times, the attempt budget, plus once for each post whose outcome was
      never recorded, because its process was cut short or its reply could not be read. */
  lemma FarAcceptancesBetweenRequeues(s0: System, actions: seq<Action>, i: nat, through: nat -> bool)
    requires Initial(s0) && IsDiscovery(Run(s0, actions), i)
    ensures var since := SinceRefill(Run(s0, actions).log, i);
            FarAcceptances(since, i, through) <=
            MAX_ATTEMPTS + Count(since, LostPost(i)) + Count(since, DroppedPost(i)) + Count(since, AbandonedPost(i)) +
            Count(since, BrokenPost(i))
  {
    InitiallyDelivering(s0);
    RunDelivers(s0, actions);
    var s := Run(s0, actions);
    assert Balanced(s, i) && Budget(s.rows[i]);
    FarAcceptancesAreCounted(SinceRefill(s.log, i), i, through);
    DoubtfulPostsSplit(SinceRefill(s.log, i), i);
    if Unwritten(s, i) == 1 {
      var t := TaskOf(s, s.grant.value);
      assert SnapshotHolds(s, t) && PickHolds(s, t, t.next);
    }
  }

  /** Once sent, a discovery row never changes again, in any continuation. */
  lemma {:induction false} SentStaysSent(s: System, actions: seq<Action>, i: nat)
    requires Delivering(s) && IsDiscovery(s, i) && s.rows[i].status == Sent
    ensures i < |Run(s, actions).rows| && Run(s, actions).rows[i] == s.rows[i]
    decreases |actions|
  {
    if actions != [] {
      SentIsForever(s, actions[0], i);
      StepDelivers(s, actions[0]);
      SentStaysSent(Step(s, actions[0]), actions[1..], i);
    }
  }

  /** What a drain holding the grant selected stays true of every discovery row it has not yet visited:
      the whole row, although requeues and policy changes run outside the grant. */
  lemma SnapshotStaysTrue(s0: System, actions: seq<Action>, p: Pid, k: nat)
    requires Initial(s0)
    requires var t := TaskOf(Run(s0, actions), p);
             t.Draining? && t.next <= k < |t.queue| && t.queue[k].copy.discoveryId.Some?
    ensures var s := Run(s0, actions);
            var pick := TaskOf(s, p).queue[k];
            s.grant == Some(p) && pick.id < |s.rows| && s.rows[pick.id] == pick.copy
  {
    InitiallyDelivering(s0);
    RunDelivers(s0, actions);
    var s := Run(s0, actions);
    assert SnapshotHolds(s, TaskOf(s, p)) && PickHolds(s, TaskOf(s, p), k);
    Holder(s, p);
  }

  /** The attempt budget: at most four attempts while pending or held, exactly five once failed, one to
      five once sent; and the column is what the history says, the posts recorded since the last requeue. */
  lemma AttemptsAreBudgeted(s0: System, actions: seq<Action>, i: nat)
    requires Initial(s0) && IsDiscovery(Run(s0, actions), i)
    ensures var s := Run(s0, actions);
            var row := s.rows[i];
            && Spent(s.log, i) == row.attempts <= MAX_ATTEMPTS
            && (row.status == Pending || row.status == Held ==> row.attempts < MAX_ATTEMPTS)
            && (row.status == Failed ==> row.attempts == MAX_ATTEMPTS)
            && (row.status == Sent ==> 0 < row.attempts)
  {
    InitiallyDelivering(s0);
    RunDelivers(s0, actions);
    assert Budget(Run(s0, actions).rows[i]);
  }

  /** So five recorded posts settle a row, whatever interleaves with them: between requeues a row that every
      drain serves is sent, or failed for good, by its fifth post. */
  lemma FiveRecordedPostsSettle(s0: System, actions: seq<Action>, i: nat)
    requires Initial(s0) && IsDiscovery(Run(s0, actions), i) && Spent(Run(s0, actions).log, i) >= MAX_ATTEMPTS
    ensures var row := Run(s0, actions).rows[i];
            Spent(Run(s0, actions).log, i) == MAX_ATTEMPTS && (row.status == Sent || row.status == Failed)
  {
    AttemptsAreBudgeted(s0, actions, i);
  }

  /** No drain without `include_held` ever posts a row that the cutoff it loaded does not clear; with an
      unreadable policy it posts nothing. */
  lemma PolicyGuardsEveryHistory(s0: System, actions: seq<Action>, k: nat)
    requires Initial(s0) && k < |Run(s0, actions).log|
    requires Run(s0, actions).log[k].Posted? && !Run(s0, actions).log[k].includeHeld
    ensures var s, e := Run(s0, actions), Run(s0, actions).log[k];
            && e.row < |s.rows| && Cleared(s.rows[e.row].eventTime, e.raw)
            && (e.raw.Some? ==> e.raw.value.At?)
  {
    InitiallyDelivering(s0);
    RunDelivers(s0, actions);
  }

  /** At most one post of a drain is answered 429, and it is the drain's last. */
  lemma OneRateLimitPerDrain(s0: System, actions: seq<Action>, j: nat, k: nat)
    requires Initial(s0) && j < k < |Run(s0, actions).log|
    requires Run(s0, actions).log[j].Posted? && Run(s0, actions).log[j].answer.Limited?
    requires Run(s0, actions).log[k].Posted?
    ensures Run(s0, actions).log[k].drain != Run(s0, actions).log[j].drain
  {
    InitiallyDelivering(s0);
    RunDelivers(s0, actions);
  }

  ghost predicate ForwardRun(s: System, actions: seq<Action>)
    decreases |actions|
  {
    actions != [] ==> Forward(s, actions[0]) && ForwardRun(Step(s, actions[0]), actions[1..])
  }

  lemma {:induction false} RunRespectsFloors(s: System, actions: seq<Action>)
    requires Delivering(s) && FloorsRespected(s) && ForwardRun(s, actions)
    ensures FloorsRespected(Run(s, actions))
    decreases |actions|
  {
    if actions != [] {
      StepDelivers(s, actions[0]);
      FloorStep(s, actions[0]);
      RunRespectsFloors(Step(s, actions[0]), actions[1..]);
    }
  }

  /** Under a clock that never goes back, once a 429 has been written to a discovery row, no process posts
      that row before the time of the answer plus the wait. */
  lemma RateLimitIsWaitedOut(s0: System, actions: seq<Action>, j: nat, k: nat)
    requires Initial(s0) && ForwardRun(s0, actions) && j < k < |Run(s0, actions).log|
    requires var s := Run(s0, actions);
             s.log[j].Deferred? && IsDiscovery(s, s.log[j].row) && s.log[k].Posted? && s.log[k].row == s.log[j].row
    ensures var s := Run(s0, actions);
            s.log[j].answeredAt + s.log[j].wait <= s.log[k].startedAt
  {
    InitiallyDelivering(s0);
    RunDelivers(s0, actions);
    RunRespectsFloors(s0, actions);
    assert Deferral(Run(s0, actions), j);
  }
}
