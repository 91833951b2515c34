/**
 What a drain leaves on record about the rows it selected, whatever interleaves with it, and what five
 drains that go through with a row make of it.
 */
module DeliveryLiveness {
  import opened Common
  import opened Outbox
  import opened Protocol
  import opened DeliveryHistory

  /** Drain `d` has dealt with row `i`: deferred it, held it, or recorded a post of it. */
  predicate Record(e: Event, d: nat, i: nat) {
    (e.Skipped? || e.Kept? || e.Counted? || e.Deferred?) && e.drain == d && e.row == i
  }

  ghost predicate RecordAfter(log: seq<Event>, b: nat, d: nat, i: nat) {
    exists k: nat :: b < k < |log| && Record(log[k], d, i)
  }

  predicate SelectedAt(log: seq<Event>, b: nat, d: nat) {
    b < |log| && log[b].Selected? && log[b].drain == d
  }

  /** Drain `d` was answered 429 and wrote the floor. */
  ghost predicate CutByLimit(log: seq<Event>, d: nat) {
    exists k: nat :: k < |log| && log[k].Deferred? && log[k].drain == d
  }

  /** The drain of the task has a record, later than its selection, of each row it is past. */
  ghost predicate PassedOnRecord(log: seq<Event>, t: Task) {
    t.Draining? && t.next <= |t.queue| ==>
      && (forall b: nat :: SelectedAt(log, b, t.drain) ==> log[b].queue == IdsOf(t.queue))
      && (forall b: nat, j: nat :: SelectedAt(log, b, t.drain) && j < t.next ==> RecordAfter(log, b, t.drain, t.queue[j].id))
      && (t.phase == Leaving ==> CutByLimit(log, t.drain))
  }

  /** A drain that ended has a record of each row it selected, unless a 429 cut it short. */
  ghost predicate EndedOnRecord(log: seq<Event>, d: nat) {
    CutByLimit(log, d) ||
    forall b: nat, j: nat :: SelectedAt(log, b, d) && j < |log[b].queue| ==> RecordAfter(log, b, d, log[b].queue[j])
  }

  ghost predicate OnRecord(s: System) {
    && (forall b: nat :: b < |s.log| && (s.log[b].Selected? || s.log[b].Ended?) ==> s.log[b].drain < s.drains)
    && (forall p: Pid :: TaskOf(s, p).Draining? ==> TaskOf(s, p).drain < s.drains)
    && (forall p: Pid :: PassedOnRecord(s.log, TaskOf(s, p)))
    && (forall k: nat :: k < |s.log| && s.log[k].Ended? ==> EndedOnRecord(s.log, s.log[k].drain))
  }

  // ---------------------------------------------------------------- one more event

  /** Records stay when the log grows by an event that opens no selection. */
  lemma PassedStays(log: seq<Event>, e: Event, t: Task)
    requires PassedOnRecord(log, t) && (e.Selected? ==> !t.Draining? || e.drain != t.drain)
    ensures PassedOnRecord(log + [e], t)
  {
    var more := log + [e];
    if t.Draining? && t.next <= |t.queue| {
      forall b: nat | SelectedAt(more, b, t.drain) ensures SelectedAt(log, b, t.drain) && more[b] == log[b] {
      }
      forall b: nat, j: nat | SelectedAt(more, b, t.drain) && j < t.next ensures RecordAfter(more, b, t.drain, t.queue[j].id) {
        assert SelectedAt(log, b, t.drain);
        assert RecordAfter(log, b, t.drain, t.queue[j].id);
        RecordStays(log, e, b, t.drain, t.queue[j].id);
      }
      if CutByLimit(log, t.drain) { LimitStays(log, e, t.drain); }
    }
  }

  lemma RecordStays(log: seq<Event>, e: Event, b: nat, d: nat, i: nat)
    requires RecordAfter(log, b, d, i)
    ensures RecordAfter(log + [e], b, d, i)
  {
    var k: nat :| b < k < |log| && Record(log[k], d, i);
    assert (log + [e])[k] == log[k];
  }

  lemma LimitStays(log: seq<Event>, e: Event, d: nat)
    requires CutByLimit(log, d)
    ensures CutByLimit(log + [e], d)
  {
    var k: nat :| k < |log| && log[k].Deferred? && log[k].drain == d;
    assert (log + [e])[k] == log[k];
  }

  lemma EndedStays(log: seq<Event>, e: Event, d: nat)
    requires EndedOnRecord(log, d) && (e.Selected? ==> e.drain != d)
    ensures EndedOnRecord(log + [e], d)
  {
    var more := log + [e];
    if CutByLimit(log, d) {
      LimitStays(log, e, d);
    } else {
      forall b: nat, j: nat | SelectedAt(more, b, d) && j < |more[b].queue| ensures RecordAfter(more, b, d, more[b].queue[j]) {
        assert SelectedAt(log, b, d) && more[b] == log[b];
        assert RecordAfter(log, b, d, log[b].queue[j]);
        RecordStays(log, e, b, d, log[b].queue[j]);
      }
    }
  }

  /** The grant holder gets past a row and leaves a record of it. */
  lemma PassedOneMore(log: seq<Event>, e: Event, t: Task, t': Task)
    requires PassedOnRecord(log, t) && t.Draining? && t.next < |t.queue| && Record(e, t.drain, t.queue[t.next].id)
    requires t'.Draining? && t'.drain == t.drain && t'.queue == t.queue && t'.next == t.next + 1
    requires t'.phase == Leaving ==> e.Deferred?
    ensures PassedOnRecord(log + [e], t')
  {
    var more := log + [e];
    assert more[|log|] == e;
    forall b: nat | SelectedAt(more, b, t.drain) ensures SelectedAt(log, b, t.drain) && more[b] == log[b] {
    }
    forall b: nat, j: nat | SelectedAt(more, b, t.drain) && j < t'.next ensures RecordAfter(more, b, t.drain, t.queue[j].id) {
      assert SelectedAt(log, b, t.drain);
      if j < t.next {
        assert RecordAfter(log, b, t.drain, t.queue[j].id);
        RecordStays(log, e, b, t.drain, t.queue[j].id);
      }
    }
  }

  // ---------------------------------------------------------------- one action

  /** The process that acts, if any, leaves every other process's task alone. */
  ghost predicate OthersStay(s: System, s': System, p: Pid) {
    forall q: Pid :: q != p ==> TaskOf(s', q) == TaskOf(s, q)
  }

  /** The log grows by one event, and the acting process's own task is accounted for. */
  lemma OneEventOnRecord(s: System, s': System, p: Pid, e: Event)
    requires OnRecord(s) && OthersStay(s, s', p) && s'.log == s.log + [e] && s.drains <= s'.drains
    requires e.Selected? ==> e.drain == s.drains < s'.drains
    requires e.Ended? ==> e.drain < s'.drains && EndedOnRecord(s.log, e.drain)
    requires PassedOnRecord(s'.log, TaskOf(s', p)) && (TaskOf(s', p).Draining? ==> TaskOf(s', p).drain < s'.drains)
    ensures OnRecord(s')
  {
    forall q: Pid ensures PassedOnRecord(s'.log, TaskOf(s', q)) {
      if q != p { PassedStays(s.log, e, TaskOf(s, q)); }
    }
    forall k: nat | k < |s'.log| && s'.log[k].Ended? ensures EndedOnRecord(s'.log, s'.log[k].drain) {
      if k < |s.log| { assert s'.log[k] == s.log[k]; }
      EndedStays(s.log, e, s'.log[k].drain);
    }
  }

  lemma SelectOnRecord(s: System, p: Pid)
    requires OnRecord(s)
    ensures OnRecord(DoSelect(s, p))
  {
    var t, s' := TaskOf(s, p), DoSelect(s, p);
    if t.PolicyRead? {
      var e, t' := s'.log[|s.log|], TaskOf(s', p);
      assert forall b: nat :: b < |s.log| ==> s'.log[b] == s.log[b];
      assert forall b: nat :: SelectedAt(s'.log, b, t'.drain) ==> b == |s.log|;
      OneEventOnRecord(s, s', p, e);
    }
  }

  lemma ChooseOnRecord(s: System, p: Pid)
    requires OnRecord(s)
    ensures OnRecord(DoChoose(s, p))
  {
    var t, s' := TaskOf(s, p), DoChoose(s, p);
    if s'.log != s.log {
      PassedOneMore(s.log, s'.log[|s.log|], t, TaskOf(s', p));
      OneEventOnRecord(s, s', p, s'.log[|s.log|]);
    } else {
      assert PassedOnRecord(s.log, t);
      SameLogOnRecord(s, s', p);
    }
  }

  /** The log stays, and the acting process is where it was in its queue, or in no drain. */
  lemma SameLogOnRecord(s: System, s': System, p: Pid)
    requires OnRecord(s) && OthersStay(s, s', p) && s'.log == s.log && s'.drains == s.drains
    requires PassedOnRecord(s.log, TaskOf(s', p)) && (TaskOf(s', p).Draining? ==> TaskOf(s', p).drain < s.drains)
    ensures OnRecord(s')
  {
    forall q: Pid ensures PassedOnRecord(s'.log, TaskOf(s', q)) {
      if q != p { assert PassedOnRecord(s.log, TaskOf(s, q)); }
    }
  }

  lemma ReplyOnRecord(s: System, p: Pid, reply: SenderReply)
    requires OnRecord(s)
    ensures OnRecord(DoReply(s, p, reply))
  {
    var t, s' := TaskOf(s, p), DoReply(s, p, reply);
    if s' != s {
      PassedStays(s.log, s'.log[|s.log|], t);
      OneEventOnRecord(s, s', p, s'.log[|s.log|]);
    }
  }

  lemma WriteOnRecord(s: System, p: Pid)
    requires OnRecord(s)
    ensures OnRecord(DoWrite(s, p))
  {
    var t, s' := TaskOf(s, p), DoWrite(s, p);
    if s' != s {
      PassedOneMore(s.log, s'.log[|s.log|], t, TaskOf(s', p));
      OneEventOnRecord(s, s', p, s'.log[|s.log|]);
    }
  }

  lemma AbortOnRecord(s: System, p: Pid)
    requires OnRecord(s)
    ensures OnRecord(DoAbort(s, p))
  {
    var t, s' := TaskOf(s, p), DoAbort(s, p);
    if s'.log != s.log {
      OneEventOnRecord(s, s', p, s'.log[|s.log|]);
    } else {
      SameLogOnRecord(s, s', p);
    }
  }

  lemma EndOnRecord(s: System, p: Pid)
    requires OnRecord(s) && Sound(s)
    ensures OnRecord(DoEndDrain(s, p))
  {
    var t, s' := TaskOf(s, p), DoEndDrain(s, p);
    if s' != s {
      assert SnapshotHolds(s, t) && PassedOnRecord(s.log, t);
      assert EndedOnRecord(s.log, t.drain);
      OneEventOnRecord(s, s', p, s'.log[|s.log|]);
    }
  }

  /** Steps of test sends, of a drain before it selects, and of processes that are not delivering. */
  lemma OtherStepOnRecord(s: System, a: Action)
    requires OnRecord(s) && IsQuiet(a)
    ensures OnRecord(Step(s, a))
  {
    var s' := Step(s, a);
    QuietStepKeepsTheLog(s, a);
    forall q: Pid ensures TaskOf(s', q) == TaskOf(s, q) || !TaskOf(s', q).Draining? {
    }
    forall q: Pid ensures PassedOnRecord(s'.log, TaskOf(s', q)) {
      assert PassedOnRecord(s.log, TaskOf(s, q));
    }
  }

  lemma RequeueOnRecord(s: System)
    requires OnRecord(s)
    ensures OnRecord(Step(s, RequeueAll))
  {
    var s', e := Step(s, RequeueAll), Refilled(FailedIds(s.rows));
    PassedStays(s.log, e, TaskOf(s, 0));
    OneEventOnRecord(s, s', 0, e);
  }

  lemma StepOnRecord(s: System, a: Action)
    requires OnRecord(s) && Sound(s)
    ensures OnRecord(Step(s, a))
  {
    if IsQuiet(a) {
      OtherStepOnRecord(s, a);
    } else if a.Select? {
      SelectOnRecord(s, a.p);
    } else if a.Choose? {
      ChooseOnRecord(s, a.p);
    } else if a.Reply? {
      ReplyOnRecord(s, a.p, a.reply);
    } else if a.Write? {
      WriteOnRecord(s, a.p);
    } else if a.EndDrain? {
      EndOnRecord(s, a.p);
    } else if a.RequeueAll? {
      RequeueOnRecord(s);
    } else {
      AbortOnRecord(s, a.p);
    }
  }

  lemma {:induction false} RunOnRecord(s: System, actions: seq<Action>)
    requires OnRecord(s) && Sound(s)
    ensures OnRecord(Run(s, actions))
    decreases |actions|
  {
    if actions != [] {
      StepOnRecord(s, actions[0]);
      StepIsSound(s, actions[0]);
      RunOnRecord(Step(s, actions[0]), actions[1..]);
    }
  }

  /** No row is passed over in silence.  Whatever interleaves, a drain that has ended has a record of every row
      it selected (a deferral, a hold, or a recorded post), unless a 429 cut it short. */
  lemma EndedDrainsLeaveRecords(s0: System, actions: seq<Action>, b: nat, e: nat, j: nat)
    requires Initial(s0) && b < |Run(s0, actions).log| && e < |Run(s0, actions).log|
    requires var log := Run(s0, actions).log;
             log[b].Selected? && log[e] == Ended(log[b].drain) && j < |log[b].queue|
    ensures var log := Run(s0, actions).log;
            RecordAfter(log, b, log[b].drain, log[b].queue[j]) || CutByLimit(log, log[b].drain)
  {
    RunOnRecord(s0, actions);
    var log := Run(s0, actions).log;
    assert EndedOnRecord(log, log[e].drain) && SelectedAt(log, b, log[b].drain);
  }

  // ---------------------------------------------------------------- five drains settle a row

  /** Drain `d` selected row `i` after its last requeue, ended, met no 429, and neither skipped nor held it. */
  ghost predicate GoesThrough(log: seq<Event>, i: nat, d: nat) {
    && (exists b: nat :: SelectedAt(log, b, d) && i in log[b].queue && |log| - |SinceRefill(log, i)| <= b)
    && Ended(d) in log && !CutByLimit(log, d)
    && Skipped(i, d) !in log && Kept(i, d) !in log
  }

  /** The drains that recorded a post of row `i`. */
  function Counters(log: seq<Event>, i: nat): set<nat> {
    if log == [] then {}
    else
      var e := log[|log| - 1];
      Counters(log[..|log| - 1], i) + if CountedPost(i)(e) then {e.drain} else {}
  }

  lemma {:induction false} CountersAreCounted(log: seq<Event>, i: nat)
    ensures |Counters(log, i)| <= Count(log, CountedPost(i))
    ensures forall d :: Counted(i, d) in log ==> d in Counters(log, i)
  {
    if log != [] {
      var front, last := log[..|log| - 1], log[|log| - 1];
      CountersAreCounted(front, i);
      assert log == front + [last];
      FilterAppend(front, last, CountedPost(i));
    }
  }

  lemma {:induction false} SinceIsSuffix(log: seq<Event>, i: nat)
    ensures |SinceRefill(log, i)| <= |log| && SinceRefill(log, i) == log[|log| - |SinceRefill(log, i)|..]
  {
    if log != [] { SinceIsSuffix(log[..|log| - 1], i); }
  }

  lemma ThroughIsCounted(log: seq<Event>, i: nat, d: nat)
    requires GoesThrough(log, i, d) && EndedOnRecord(log, d)
    ensures d in Counters(SinceRefill(log, i), i)
  {
    var since := SinceRefill(log, i);
    var b: nat :| SelectedAt(log, b, d) && i in log[b].queue && |log| - |since| <= b;
    var j: nat :| j < |log[b].queue| && log[b].queue[j] == i;
    assert RecordAfter(log, b, d, log[b].queue[j]);
    var k: nat :| b < k < |log| && Record(log[k], d, i);
    assert log[k] in log && log[k] == Counted(i, d);
    SinceIsSuffix(log, i);
    assert since[k - (|log| - |since|)] == log[k];
    CountersAreCounted(since, i);
  }

  lemma SubsetIsSmaller(small: set<nat>, large: set<nat>)
    requires small <= large
    ensures |small| <= |large|
  {
    if small != {} {
      var x :| x in small;
      SubsetIsSmaller(small - {x}, large - {x});
    }
  }

  /** In any interleaving at most five drains go through with a discovery row between two requeues, and after
      five it is settled: sent, or failed for good. */
  lemma FiveDrainsSettleInAnyHistory(s0: System, actions: seq<Action>, i: nat, drains: set<nat>)
    requires Initial(s0) && IsDiscovery(Run(s0, actions), i)
    requires forall d :: d in drains ==> GoesThrough(Run(s0, actions).log, i, d)
    ensures |drains| <= MAX_ATTEMPTS
    ensures |drains| == MAX_ATTEMPTS ==>
              Run(s0, actions).rows[i].status == Sent || Run(s0, actions).rows[i].status == Failed
  {
    RunOnRecord(s0, actions);
    AttemptsAreBudgeted(s0, actions, i);
    var log := Run(s0, actions).log;
    forall d | d in drains ensures d in Counters(SinceRefill(log, i), i) {
      var e: nat :| e < |log| && log[e] == Ended(d);
      assert EndedOnRecord(log, log[e].drain);
      ThroughIsCounted(log, i, d);
    }
    SubsetIsSmaller(drains, Counters(SinceRefill(log, i), i));
    CountersAreCounted(SinceRefill(log, i), i);
  }
}
