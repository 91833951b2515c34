/**
 Delivery as many processes really run it: drains and test sends that interleave step by step, share one
 delivery grant, and may be cut short anywhere, while other processes enqueue, requeue and set the policy
 without the grant.  Models DiscordNotifier.drain and enqueue_test of notifications/discord.py over the
 notification methods of core/store.py.  An action that is not enabled leaves the system as it is, so
 every theorem speaks about every sequence of actions.
 */
module Protocol {
  import opened Common
  import opened DeliveryPolicy
  import opened Outbox

  type Pid = nat

  /** A row as a drain selected it. */
  datatype Picked = Picked(id: nat, copy: Row)

  datatype Phase =
    | Choosing
    | Holding(verdict: Verdict)
    | Posting(startedAt: Instant)
    | Answered(startedAt: Instant, answer: Answer, answeredAt: Instant)
    | Leaving

  datatype Task =
    | Idle
    | Granted(includeHeld: bool)
    | PolicyRead(includeHeld: bool, raw: Option<Stamp>)
    | Draining(drain: nat, includeHeld: bool, raw: Option<Stamp>, queue: seq<Picked>, next: nat, phase: Phase)
    | TestWaiting(row: nat)
    | TestPosting(row: nat)
    | TestAnswered(row: nat, outcome: Outcome)
    | TestUnmarked(row: nat, outcome: Outcome)

  /** What the history remembers. */
  datatype Event =
    | Posted(row: nat, drain: nat, includeHeld: bool, raw: Option<Stamp>, startedAt: Instant, answeredAt: Instant, answer: Answer)
    | Selected(drain: nat, queue: seq<nat>)
    | Skipped(row: nat, drain: nat)
    | Kept(row: nat, drain: nat)
    | Counted(row: nat, drain: nat)
    | Deferred(row: nat, drain: nat, answeredAt: Instant, wait: Instant, floor: Instant)
    | Ended(drain: nat)
    | Lost(row: nat)
    | Dropped(row: nat)
    | Abandoned(row: nat)
    | Refilled(rows: set<nat>)

  datatype System = System(
    rows: seq<Row>, raw: Option<Stamp>, tasks: map<Pid, Task>, grant: Option<Pid>, now: Instant,
    drains: nat, log: seq<Event>)

  datatype Action =
    | BeginDrain(p: Pid, includeHeld: bool)
    | ReadPolicy(p: Pid)
    | Select(p: Pid)
    | Choose(p: Pid)
    | Reply(p: Pid, reply: SenderReply)
    | Write(p: Pid)
    | EndDrain(p: Pid)
    | FailWrite(p: Pid)
    | Abort(p: Pid)
    | BeginTest(p: Pid, draw: nat, note: string)
    | FailTest(p: Pid)
    | GrantTest(p: Pid)
    | ReplyTest(p: Pid, reply: SenderReply)
    | ReleaseTest(p: Pid)
    | WriteTest(p: Pid)
    | Enqueue(id: nat, eventTime: Stamp)
    | RequeueAll
    | SetPolicy(value: Stamp)
    | Tick(to: Instant)

  function TaskOf(s: System, p: Pid): Task {
    if p in s.tasks then s.tasks[p] else Idle
  }

  function Set(s: System, p: Pid, t: Task): System {
    s.(tasks := s.tasks[p := t])
  }

  function Pick(rows: seq<Row>, includeHeld: bool): seq<Picked> {
    var ids := SelectedIds(rows, includeHeld);
    seq(|ids|, k requires 0 <= k < |ids| => Picked(ids[k], rows[ids[k]]))
  }

  function IdsOf(queue: seq<Picked>): seq<nat> {
    seq(|queue|, k requires 0 <= k < |queue| => queue[k].id)
  }

  /** The drain holds a turn: its next pick names a row of the table. */
  predicate AtTurn(s: System, t: Task) {
    t.Draining? && t.next < |t.queue| && t.queue[t.next].id < |s.rows|
  }

  function FailedIds(rows: seq<Row>): set<nat> {
    set i: nat | i < |rows| && rows[i].status == Failed
  }

  // ---------------------------------------------------------------- steps of a drain

  function DoBeginDrain(s: System, p: Pid, includeHeld: bool): System {
    if s.grant == None && TaskOf(s, p) == Idle
    then Set(s, p, Granted(includeHeld)).(grant := Some(p))
    else s
  }

  function DoReadPolicy(s: System, p: Pid): System {
    var t := TaskOf(s, p);
    if t.Granted? then Set(s, p, PolicyRead(t.includeHeld, s.raw)) else s
  }

  function DoSelect(s: System, p: Pid): System {
    var t := TaskOf(s, p);
    if t.PolicyRead?
    then
      var queue := Pick(s.rows, t.includeHeld);
      Set(s, p, Draining(s.drains, t.includeHeld, t.raw, queue, 0, Choosing))
        .(drains := s.drains + 1, log := s.log + [Selected(s.drains, IdsOf(queue))])
    else s
  }

  function DoChoose(s: System, p: Pid): System {
    var t := TaskOf(s, p);
    if !AtTurn(s, t) || t.phase != Choosing then s
    else
      var pick := t.queue[t.next];
      var verdict := VerdictFor(pick.copy, t.includeHeld, LoadPolicy(t.raw));
      if !EligibleAt(pick.copy, s.now) then Set(s, p, t.(next := t.next + 1)).(log := s.log + [Skipped(pick.id, t.drain)])
      else Set(s, p, t.(phase := if verdict == Send then Posting(s.now) else Holding(verdict)))
  }

  function DoReply(s: System, p: Pid, reply: SenderReply): System {
    var t := TaskOf(s, p);
    if !AtTurn(s, t) || !t.phase.Posting? then s
    else
      var answer := Read(reply);
      var told := s.(log := s.log + [Posted(t.queue[t.next].id, t.drain, t.includeHeld, t.raw, t.phase.startedAt, s.now, answer)]);
      if answer == Broken then Set(told, p, Idle).(grant := None)
      else Set(told, p, t.(phase := Answered(t.phase.startedAt, answer, s.now)))
  }

  function DoWrite(s: System, p: Pid): System {
    var t := TaskOf(s, p);
    if !AtTurn(s, t) then s
    else if t.phase.Holding? then DoHold(s, p, t)
    else if t.phase.Answered? then DoRecord(s, p, t)
    else s
  }

  function DoHold(s: System, p: Pid, t: Task): System
    requires AtTurn(s, t) && t.phase.Holding?
  {
    var id := t.queue[t.next].id;
    Set(s, p, t.(next := t.next + 1, phase := Choosing))
      .(rows := s.rows[id := HoldRow(s.rows[id], t.phase.verdict, s.now)], log := s.log + [Kept(id, t.drain)])
  }

  function DoRecord(s: System, p: Pid, t: Task): System
    requires AtTurn(s, t) && t.phase.Answered?
  {
    var pick, answer := t.queue[t.next], t.phase.answer;
    var written := s.(rows := s.rows[pick.id := Recorded(s.rows[pick.id], pick.copy, answer, s.now)]);
    match answer
    case Limited(wait) =>
      Set(written, p, t.(next := t.next + 1, phase := Leaving))
        .(log := s.log + [Deferred(pick.id, t.drain, t.phase.answeredAt, wait, s.now + wait)])
    case _ =>
      Set(written, p, t.(next := t.next + 1, phase := Choosing)).(log := s.log + [Counted(pick.id, t.drain)])
  }

  function DoEndDrain(s: System, p: Pid): System {
    var t := TaskOf(s, p);
    if t.Draining? && (t.phase == Leaving || (t.phase == Choosing && t.next == |t.queue|))
    then Set(s, p, Idle).(grant := None, log := s.log + [Ended(t.drain)])
    else s
  }

  /** The row whose acceptance a process has heard of and not yet recorded. */
  function Unrecorded(t: Task): Option<nat> {
    if t.Draining? && t.next < |t.queue| && t.phase.Answered? && t.phase.answer.Accepted?
    then Some(t.queue[t.next].id) else None
  }

  /** What is lost when a process is cut short: the acceptance it has heard of, the refusal, or, with a post
      under way, the answer. */
  function CutShort(t: Task): Option<Event> {
    if !t.Draining? || t.next >= |t.queue| then None
    else
      match t.phase
      case Posting(_) => Some(Abandoned(t.queue[t.next].id))
      case Answered(_, Accepted(_), _) => Some(Lost(t.queue[t.next].id))
      case Answered(_, Refused(_, _), _) => Some(Dropped(t.queue[t.next].id))
      case _ => None
  }

  /** A process is cut short: it dies, or the exception of a store call leaves the drain.  Either way nothing
      more is written and the grant is free again. */
  function DoAbort(s: System, p: Pid): System {
    var t := TaskOf(s, p);
    Set(s, p, Idle).(grant := if s.grant == Some(p) then None else s.grant,
                     log := if CutShort(t).Some? then s.log + [CutShort(t).value] else s.log)
  }

  /** The write of the turn raises. */
  function DoFailWrite(s: System, p: Pid): System {
    var t := TaskOf(s, p);
    if AtTurn(s, t) && (t.phase.Holding? || t.phase.Answered?) then DoAbort(s, p) else s
  }

  // ---------------------------------------------------------------- steps of a test send

  function TestRow(draw: nat, note: string): Row {
    FreshRow(TestKey(draw), None, Missing, TestEmbed(note))
  }

  function DoBeginTest(s: System, p: Pid, draw: nat, note: string): System {
    if TaskOf(s, p) == Idle && !HasKey(s.rows, TestKey(draw))
    then Set(s, p, TestWaiting(|s.rows|)).(rows := Put(s.rows, TestRow(draw, note)))
    else s
  }

  function MarkAt(s: System, id: nat, status: Status, error: Option<string>, http: Option<int>): System {
    if id < |s.rows| then s.(rows := s.rows[id := Mark(s.rows[id], status, error, http, true, s.now)]) else s
  }

  function DoFailTest(s: System, p: Pid): System {
    var t := TaskOf(s, p);
    if t.TestWaiting? then Set(MarkAt(s, t.row, Failed, Some("no webhook configured"), None), p, Idle) else s
  }

  function DoGrantTest(s: System, p: Pid): System {
    var t := TaskOf(s, p);
    if t.TestWaiting? && s.grant == None then Set(s, p, TestPosting(t.row)).(grant := Some(p)) else s
  }

  function DoReplyTest(s: System, p: Pid, reply: SenderReply): System {
    var t := TaskOf(s, p);
    if !t.TestPosting? then s
    else
      match NormalizeOutcome(reply)
      case None => Set(s, p, Idle).(grant := None)
      case Some(outcome) => Set(s, p, TestAnswered(t.row, outcome))
  }

  function DoReleaseTest(s: System, p: Pid): System {
    var t := TaskOf(s, p);
    if t.TestAnswered? then Set(s, p, TestUnmarked(t.row, t.outcome)).(grant := None) else s
  }

  function DoWriteTest(s: System, p: Pid): System {
    var t := TaskOf(s, p);
    if t.TestUnmarked?
    then Set(MarkAt(s, t.row, if t.outcome.ok then Sent else Failed, t.outcome.err, t.outcome.status), p, Idle)
    else s
  }

  // ---------------------------------------------------------------- the system

  function Step(s: System, a: Action): System {
    match a
    case BeginDrain(p, includeHeld) => DoBeginDrain(s, p, includeHeld)
    case ReadPolicy(p) => DoReadPolicy(s, p)
    case Select(p) => DoSelect(s, p)
    case Choose(p) => DoChoose(s, p)
    case Reply(p, reply) => DoReply(s, p, reply)
    case Write(p) => DoWrite(s, p)
    case EndDrain(p) => DoEndDrain(s, p)
    case FailWrite(p) => DoFailWrite(s, p)
    case Abort(p) => DoAbort(s, p)
    case BeginTest(p, draw, note) => DoBeginTest(s, p, draw, note)
    case FailTest(p) => DoFailTest(s, p)
    case GrantTest(p) => DoGrantTest(s, p)
    case ReplyTest(p, reply) => DoReplyTest(s, p, reply)
    case ReleaseTest(p) => DoReleaseTest(s, p)
    case WriteTest(p) => DoWriteTest(s, p)
    case Enqueue(id, eventTime) => s.(rows := Put(s.rows, NotificationFor(id, eventTime)))
    case RequeueAll => s.(rows := RequeueFailed(s.rows), log := s.log + [Refilled(FailedIds(s.rows))])
    case SetPolicy(value) => s.(raw := Some(value))
    case Tick(to) => s.(now := to)
  }

  function Run(s: System, actions: seq<Action>): System
    decreases |actions|
  {
    if actions == [] then s else Run(Step(s, actions[0]), actions[1..])
  }

  lemma {:induction false} RunConcat(s: System, first: seq<Action>, second: seq<Action>)
    ensures Run(s, first + second) == Run(Run(s, first), second)
    decreases |first|
  {
    if first == [] {
      assert first + second == second;
    } else {
      assert (first + second)[1..] == first[1..] + second;
      RunConcat(Step(s, first[0]), first[1..], second);
    }
  }

  ghost predicate Initial(s: System) {
    s.rows == [] && s.tasks == map[] && s.grant == None && s.drains == 0 && s.log == []
  }

  // ---------------------------------------------------------------- structural invariant

  predicate InsideGrant(t: Task) {
    t.Granted? || t.PolicyRead? || t.Draining? || t.TestPosting? || t.TestAnswered?
  }

  ghost predicate IsDiscovery(s: System, id: nat) {
    id < |s.rows| && s.rows[id].discoveryId.Some?
  }

  /** One process at a time is inside the grant, and it is the one the lock names. */
  ghost predicate Exclusive(s: System) {
    forall p: Pid :: InsideGrant(TaskOf(s, p)) <==> s.grant == Some(p)
  }

  ghost predicate TestTask(s: System, t: Task) {
    t.TestWaiting? || t.TestPosting? || t.TestAnswered? || t.TestUnmarked? ==>
      t.row < |s.rows| && s.rows[t.row].discoveryId == None
  }

  /** The queue of a drain against the live table: increasing ids of selectable copies, every copy still
      names its row, and the copies of discovery rows not yet visited are still the rows themselves. */
  ghost predicate SnapshotHolds(s: System, t: Task) {
    t.Draining? ==>
      && t.next <= |t.queue|
      && (t.phase.Holding? || t.phase.Posting? || t.phase.Answered? ==>
            t.next < |t.queue| && DecidedAs(t, if t.phase.Holding? then t.phase.verdict else Send))
      && (t.phase.Holding? ==> t.phase.verdict != Send)
      && (t.phase.Answered? ==> t.phase.answer != Broken)
      && (t.phase.Posting? || t.phase.Answered? ==> EligibleAt(t.queue[t.next].copy, t.phase.startedAt))
      && (forall i, k :: 0 <= i < k < |t.queue| ==> t.queue[i].id < t.queue[k].id)
      && (forall k :: 0 <= k < |t.queue| ==> PickHolds(s, t, k))
  }

  /** The verdict the drain acts on is the one its mode and its policy give the row of the turn. */
  ghost predicate DecidedAs(t: Task, verdict: Verdict)
    requires t.Draining? && t.next < |t.queue|
  {
    VerdictFor(t.queue[t.next].copy, t.includeHeld, LoadPolicy(t.raw)) == verdict
  }

  ghost predicate PickHolds(s: System, t: Task, k: nat)
    requires t.Draining? && k < |t.queue|
  {
    var pick := t.queue[k];
    && pick.id < |s.rows|
    && Selectable(pick.copy, t.includeHeld)
    && pick.copy.discoveryId == s.rows[pick.id].discoveryId
    && pick.copy.eventTime == s.rows[pick.id].eventTime
    && (k >= t.next && pick.copy.discoveryId.Some? ==> s.rows[pick.id] == pick.copy)
  }

  /** The attempt budget of a discovery row. */
  ghost predicate Budget(row: Row) {
    row.discoveryId.Some? ==>
      match row.status
      case Pending => row.attempts <= MAX_ATTEMPTS - 1
      case Held => row.attempts <= MAX_ATTEMPTS - 1
      case Failed => row.attempts == MAX_ATTEMPTS
      case Sent => 1 <= row.attempts <= MAX_ATTEMPTS
  }

  ghost predicate Sound(s: System) {
    && Exclusive(s)
    && (forall p: Pid :: TestTask(s, TaskOf(s, p)))
    && (forall p: Pid :: SnapshotHolds(s, TaskOf(s, p)))
    && (forall i :: 0 <= i < |s.rows| ==> Budget(s.rows[i]))
  }

  /** Rows keep what identifies them; new rows only join at the end. */
  ghost predicate Grows(before: seq<Row>, after: seq<Row>) {
    && |before| <= |after|
    && forall i :: 0 <= i < |before| ==>
         && after[i].discoveryId == before[i].discoveryId && after[i].eventTime == before[i].eventTime
         && after[i].key == before[i].key && after[i].payload == before[i].payload
  }

  /** An action of a process other than the grant holder never touches an unsettled discovery row. */
  ghost predicate OnlySettledRowsChange(before: seq<Row>, after: seq<Row>) {
    forall i :: 0 <= i < |before| && i < |after| && before[i].discoveryId.Some? && before[i].status != Failed ==> after[i] == before[i]
  }

  /** A process that stays outside the drain loop keeps the invariant when it changes its own task and no
      unsettled discovery row. */
  lemma SoundFromOutside(s: System, s': System, p: Pid)
    requires Sound(s) && Grows(s.rows, s'.rows) && OnlySettledRowsChange(s.rows, s'.rows)
    requires forall q: Pid :: q != p ==> TaskOf(s', q) == TaskOf(s, q)
    requires !TaskOf(s', p).Draining? || s'.rows == s.rows
    requires SnapshotHolds(s', TaskOf(s', p)) && TestTask(s', TaskOf(s', p))
    requires forall i :: 0 <= i < |s'.rows| ==> Budget(s'.rows[i])
    requires InsideGrant(TaskOf(s', p)) <==> s'.grant == Some(p)
    requires s'.grant == s.grant || ((s.grant == None || s.grant == Some(p)) && (s'.grant == None || s'.grant == Some(p)))
    ensures Sound(s')
  {
    forall q: Pid ensures SnapshotHolds(s', TaskOf(s', q)) {
      var t := TaskOf(s', q);
      if q != p && t.Draining? {
        assert SnapshotHolds(s, t);
        forall k | 0 <= k < |t.queue| ensures PickHolds(s', t, k) {
          assert PickHolds(s, t, k);
        }
      }
    }
    forall q: Pid ensures TestTask(s', TaskOf(s', q)) {
      assert TestTask(s, TaskOf(s, q));
    }
    forall q: Pid ensures InsideGrant(TaskOf(s', q)) <==> s'.grant == Some(q) {
      assert InsideGrant(TaskOf(s, q)) <==> s.grant == Some(q);
    }
  }

  lemma SelectIsSound(s: System, p: Pid)
    requires Sound(s)
    ensures Sound(DoSelect(s, p))
  {
    var t := TaskOf(s, p);
    if t.PolicyRead? {
      var s' := DoSelect(s, p);
      var t' := TaskOf(s', p);
      forall k | 0 <= k < |t'.queue| ensures PickHolds(s', t', k) {
      }
      assert InsideGrant(t) && InsideGrant(t');
      SoundFromOutside(s, s', p);
    }
  }

  /** The grant holder takes a turn: it may rewrite the row of the turn and then moves past it. */
  lemma TurnIsSound(s: System, s': System, p: Pid)
    requires Sound(s) && AtTurn(s, TaskOf(s, p))
    requires var t, t' := TaskOf(s, p), TaskOf(s', p);
             && t'.Draining? && t'.queue == t.queue && t'.includeHeld == t.includeHeld && t'.next == t.next + 1
             && (t'.phase.Choosing? || t'.phase.Leaving?)
             && exists row :: s'.rows == s.rows[t.queue[t.next].id := row] && Budget(row)
                              && row.discoveryId == s.rows[t.queue[t.next].id].discoveryId
                              && row.eventTime == s.rows[t.queue[t.next].id].eventTime
    requires s'.grant == s.grant && forall q: Pid :: q != p ==> TaskOf(s', q) == TaskOf(s, q)
    ensures Sound(s')
  {
    var t, t' := TaskOf(s, p), TaskOf(s', p);
    assert SnapshotHolds(s, t);
    forall k | 0 <= k < |t'.queue| ensures PickHolds(s', t', k) {
      assert PickHolds(s, t, k);
    }
    forall q: Pid ensures SnapshotHolds(s', TaskOf(s', q)) && TestTask(s', TaskOf(s', q))
                          && (InsideGrant(TaskOf(s', q)) <==> s'.grant == Some(q)) {
      assert InsideGrant(TaskOf(s, q)) <==> s.grant == Some(q);
      assert InsideGrant(TaskOf(s, p)) <==> s.grant == Some(p);
      assert TestTask(s, TaskOf(s, q));
    }
  }

  lemma ChooseIsSound(s: System, p: Pid)
    requires Sound(s)
    ensures Sound(DoChoose(s, p))
  {
    var t := TaskOf(s, p);
    if AtTurn(s, t) && t.phase == Choosing {
      var pick := t.queue[t.next];
      assert SnapshotHolds(s, t) && PickHolds(s, t, t.next);
      var verdict := VerdictFor(pick.copy, t.includeHeld, LoadPolicy(t.raw));
      var s' := DoChoose(s, p);
      if !EligibleAt(pick.copy, s.now) {
        assert s'.rows == s.rows[pick.id := s.rows[pick.id]];
        TurnIsSound(s, s', p);
      } else {
        var t' := TaskOf(s', p);
        forall k | 0 <= k < |t'.queue| ensures PickHolds(s', t', k) {
          assert PickHolds(s, t, k);
        }
        SoundFromOutside(s, s', p);
      }
    }
  }

  lemma ReplyIsSound(s: System, p: Pid, reply: SenderReply)
    requires Sound(s)
    ensures Sound(DoReply(s, p, reply))
  {
    var t := TaskOf(s, p);
    if AtTurn(s, t) && t.phase.Posting? {
      var s' := DoReply(s, p, reply);
      var t' := TaskOf(s', p);
      assert InsideGrant(t);
      if t'.Draining? {
        assert SnapshotHolds(s, t);
        forall k | 0 <= k < |t'.queue| ensures PickHolds(s', t', k) {
          assert PickHolds(s, t, k);
        }
      }
      SoundFromOutside(s, s', p);
    }
  }

  lemma WriteIsSound(s: System, p: Pid)
    requires Sound(s)
    ensures Sound(DoWrite(s, p))
  {
    var t := TaskOf(s, p);
    if AtTurn(s, t) && (t.phase.Holding? || t.phase.Answered?) {
      var pick := t.queue[t.next];
      assert SnapshotHolds(s, t) && PickHolds(s, t, t.next);
      assert Budget(s.rows[pick.id]);
      var row := if t.phase.Holding? then HoldRow(s.rows[pick.id], t.phase.verdict, s.now)
                 else Recorded(s.rows[pick.id], pick.copy, t.phase.answer, s.now);
      assert Budget(row);
      assert DoWrite(s, p).rows == s.rows[pick.id := row];
      TurnIsSound(s, DoWrite(s, p), p);
    }
  }

  /** Steps that move one process between tasks outside the drain loop. */
  lemma TaskStepIsSound(s: System, a: Action)
    requires Sound(s)
    requires a.BeginDrain? || a.ReadPolicy? || a.EndDrain? || a.FailWrite? || a.Abort? || a.GrantTest? || a.ReplyTest? || a.ReleaseTest?
    ensures Sound(Step(s, a))
  {
    var s' := Step(s, a);
    if s' != s {
      assert InsideGrant(TaskOf(s, a.p)) <==> s.grant == Some(a.p);
      assert TestTask(s, TaskOf(s, a.p));
      SoundFromOutside(s, s', a.p);
    }
  }

  lemma TestRowStepIsSound(s: System, a: Action)
    requires Sound(s) && (a.BeginTest? || a.FailTest? || a.WriteTest?)
    ensures Sound(Step(s, a))
  {
    var s' := Step(s, a);
    if s' != s {
      assert InsideGrant(TaskOf(s, a.p)) <==> s.grant == Some(a.p);
      assert TestTask(s, TaskOf(s, a.p));
      SoundFromOutside(s, s', a.p);
    }
  }

  /** Steps taken without the grant by processes that are not delivering. */
  lemma ForeignStepIsSound(s: System, a: Action)
    requires Sound(s) && (a.Enqueue? || a.RequeueAll? || a.SetPolicy? || a.Tick?)
    ensures Sound(Step(s, a))
  {
    var s' := Step(s, a);
    forall q: Pid ensures SnapshotHolds(s', TaskOf(s', q)) && TestTask(s', TaskOf(s', q)) {
      var t := TaskOf(s, q);
      assert SnapshotHolds(s, t) && TestTask(s, t);
      if t.Draining? {
        forall k | 0 <= k < |t.queue| ensures PickHolds(s', t, k) {
          assert PickHolds(s, t, k);
        }
      }
    }
    forall q: Pid ensures InsideGrant(TaskOf(s', q)) <==> s'.grant == Some(q) {
      assert InsideGrant(TaskOf(s, q)) <==> s.grant == Some(q);
    }
  }

  /** Every action keeps mutual exclusion, the truth of the holder's snapshot and the attempt budget. */
  lemma StepIsSound(s: System, a: Action)
    requires Sound(s)
    ensures Sound(Step(s, a))
  {
    match a
    case Select(p) => SelectIsSound(s, p);
    case Choose(p) => ChooseIsSound(s, p);
    case Reply(p, reply) => ReplyIsSound(s, p, reply);
    case Write(p) => WriteIsSound(s, p);
    case BeginTest(_, _, _) => TestRowStepIsSound(s, a);
    case FailTest(_) => TestRowStepIsSound(s, a);
    case WriteTest(_) => TestRowStepIsSound(s, a);
    case Enqueue(_, _) => ForeignStepIsSound(s, a);
    case RequeueAll => ForeignStepIsSound(s, a);
    case SetPolicy(_) => ForeignStepIsSound(s, a);
    case Tick(_) => ForeignStepIsSound(s, a);
    case _ => TaskStepIsSound(s, a);
  }

  // ---------------------------------------------------------------- the log

  /** The process runs the drain of that number. */
  predicate OfDrain(s: System, p: Pid, drain: nat) {
    TaskOf(s, p).Draining? && TaskOf(s, p).drain == drain
  }

  /** The process has its turn at that row. */
  predicate OnRow(s: System, p: Pid, row: nat) {
    AtTurn(s, TaskOf(s, p)) && TaskOf(s, p).queue[TaskOf(s, p).next].id == row
  }

  /** What an event says of the step that wrote it. */
  ghost predicate EventTells(s: System, a: Action, after: System, e: Event) {
    match e
    case Posted(row, drain, includeHeld, raw, startedAt, answeredAt, answer) =>
      && a.Reply? && OfDrain(s, a.p, drain) && OnRow(s, a.p, row) && after.rows == s.rows
      && TaskOf(s, a.p).includeHeld == includeHeld && TaskOf(s, a.p).raw == raw
      && answeredAt == s.now && answer == Read(a.reply)
      && (s.rows[row].discoveryId.Some? ==>
            && EligibleAt(s.rows[row], startedAt)
            && VerdictFor(s.rows[row], includeHeld, LoadPolicy(raw)) == Send)
    case Selected(drain, queue) =>
      && a.Select? && TaskOf(s, a.p).PolicyRead? && after.rows == s.rows && OfDrain(after, a.p, drain) && drain == s.drains
      && forall i: nat :: i in queue <==>
           i < |s.rows| && (s.rows[i].status == Pending || (TaskOf(s, a.p).includeHeld && s.rows[i].status == Held))
    case Skipped(row, drain) =>
      && a.Choose? && OfDrain(s, a.p, drain) && OnRow(s, a.p, row) && after.rows == s.rows
      && (s.rows[row].discoveryId.Some? ==> !EligibleAt(s.rows[row], s.now))
    case Kept(row, drain) =>
      && a.Write? && OfDrain(s, a.p, drain) && OnRow(s, a.p, row) && OnlyRow(s.rows, after.rows, row)
      && after.rows[row].status == Held && after.rows[row].attempts == s.rows[row].attempts
    case Counted(row, drain) =>
      && a.Write? && OfDrain(s, a.p, drain) && OnRow(s, a.p, row) && OnlyRow(s.rows, after.rows, row)
      && after.rows[row].status != Held && after.rows[row].attempts == s.rows[row].attempts + 1
    case Deferred(row, drain, answeredAt, wait, floor) =>
      && a.Write? && OfDrain(s, a.p, drain) && OnRow(s, a.p, row) && OnlyRow(s.rows, after.rows, row)
      && TaskOf(s, a.p).phase.Answered? && TaskOf(s, a.p).phase.answeredAt == answeredAt
      && TaskOf(s, a.p).phase.answer == Limited(wait)
      && floor == s.now + wait && Postponed(s.rows[row], after.rows[row], floor)
    case Ended(drain) => a.EndDrain? && OfDrain(s, a.p, drain) && after.rows == s.rows && after.grant == None
    case Lost(row) => CutOnRow(s, a, after, row) && TaskOf(s, a.p).phase.Answered? && TaskOf(s, a.p).phase.answer.Accepted?
    case Dropped(row) => CutOnRow(s, a, after, row) && TaskOf(s, a.p).phase.Answered? && TaskOf(s, a.p).phase.answer.Refused?
    case Abandoned(row) => a.Abort? && CutOnRow(s, a, after, row) && TaskOf(s, a.p).phase.Posting?
    case Refilled(rows) => a.RequeueAll? && forall i: nat :: i in rows <==> i < |s.rows| && s.rows[i].status == Failed
  }

  /** The process is cut short in its turn at that row: nothing is written and the grant is free. */
  predicate CutOnRow(s: System, a: Action, after: System, row: nat) {
    (a.Abort? || a.FailWrite?) && OnRow(s, a.p, row) && after.rows == s.rows && after.grant == None
  }

  /** The step adds nothing to the log, or one event that tells of it. */
  ghost predicate Logs(s: System, a: Action, after: System) {
    after.log == s.log || exists e :: after.log == s.log + [e] && EventTells(s, a, after, e)
  }

  /** No row is written and no turn passes. */
  ghost predicate Stays(s: System, after: System, p: Pid) {
    && after.rows == s.rows
    && (TaskOf(s, p).Draining? ==> TaskOf(after, p).Draining? && TaskOf(after, p).next == TaskOf(s, p).next)
  }

  lemma WriteTells(s: System, p: Pid)
    requires Sound(s)
    ensures var after := DoWrite(s, p); Logs(s, Write(p), after) && (after.log == s.log ==> Stays(s, after, p))
  {
    var t, after := TaskOf(s, p), DoWrite(s, p);
    if AtTurn(s, t) && (t.phase.Holding? || t.phase.Answered?) {
      assert SnapshotHolds(s, t);
      var e := after.log[|s.log|];
      assert after.log == s.log + [e] && EventTells(s, Write(p), after, e);
    }
  }

  lemma ChooseTells(s: System, p: Pid)
    requires Sound(s)
    ensures var after := DoChoose(s, p); Logs(s, Choose(p), after) && (after.log == s.log ==> Stays(s, after, p))
  {
    var t, after := TaskOf(s, p), DoChoose(s, p);
    if after.log != s.log {
      assert SnapshotHolds(s, t) && PickHolds(s, t, t.next);
      var e := after.log[|s.log|];
      assert after.log == s.log + [e] && EventTells(s, Choose(p), after, e);
    }
  }

  lemma ReplyTells(s: System, p: Pid, reply: SenderReply)
    requires Sound(s)
    ensures Logs(s, Reply(p, reply), DoReply(s, p, reply))
  {
    var t, after := TaskOf(s, p), DoReply(s, p, reply);
    if after.log != s.log {
      assert SnapshotHolds(s, t) && PickHolds(s, t, t.next);
      var e := after.log[|s.log|];
      assert after.log == s.log + [e] && EventTells(s, Reply(p, reply), after, e);
    }
  }

  lemma SelectTells(s: System, p: Pid)
    ensures Logs(s, Select(p), DoSelect(s, p))
  {
    var t, after := TaskOf(s, p), DoSelect(s, p);
    if t.PolicyRead? {
      var ids := SelectedIds(s.rows, t.includeHeld);
      assert IdsOf(Pick(s.rows, t.includeHeld)) == ids;
      forall i: nat
        ensures i in ids <==> i < |s.rows| && (s.rows[i].status == Pending || (t.includeHeld && s.rows[i].status == Held))
      {
        SelectionIsExact(s.rows, t.includeHeld, i);
      }
      assert after.log == s.log + [Selected(s.drains, ids)] && EventTells(s, Select(p), after, Selected(s.drains, ids));
    }
  }

  lemma CutTells(s: System, a: Action)
    requires Sound(s) && (a.Abort? || a.FailWrite?)
    ensures Logs(s, a, Step(s, a))
  {
    var t, after := TaskOf(s, a.p), Step(s, a);
    if after.log != s.log {
      assert SnapshotHolds(s, t) && PickHolds(s, t, t.next);
      assert InsideGrant(t) <==> s.grant == Some(a.p);
      var e := after.log[|s.log|];
      assert after.log == s.log + [e] && EventTells(s, a, after, e);
    }
  }

  lemma OthersTell(s: System, a: Action)
    requires !a.Select? && !a.Choose? && !a.Reply? && !a.Write? && !a.Abort? && !a.FailWrite?
    ensures Logs(s, a, Step(s, a)) && Step(s, a).drains == s.drains
  {
    if a.EndDrain? && Step(s, a).log != s.log {
      assert EventTells(s, a, Step(s, a), Ended(TaskOf(s, a.p).drain));
    } else if a.RequeueAll? {
      assert EventTells(s, a, Step(s, a), Refilled(FailedIds(s.rows)));
    }
  }

  /** The log tells what happened: a step adds at most one event, the event tells of that very step, and a
      drain neither moves past a row nor changes one without an event.  Drains are numbered as they select. */
  lemma LogTellsTheSteps(s: System, a: Action)
    requires Sound(s)
    ensures Logs(s, a, Step(s, a))
    ensures (a.Choose? || a.Write?) && Step(s, a).log == s.log ==> Stays(s, Step(s, a), a.p)
    ensures Step(s, a).drains == s.drains + (if a.Select? && TaskOf(s, a.p).PolicyRead? then 1 else 0)
  {
    match a
    case Select(p) => SelectTells(s, p);
    case Choose(p) => ChooseTells(s, p);
    case Reply(p, reply) => ReplyTells(s, p, reply);
    case Write(p) => WriteTells(s, p);
    case Abort(_) => CutTells(s, a);
    case FailWrite(_) => CutTells(s, a);
    case _ => OthersTell(s, a);
  }

  // ---------------------------------------------------------------- test sends

  /** The row of a test send is queued with nothing known about it. */
  ghost predicate TestQueued(s: System, after: System, p: Pid, draw: nat, note: string) {
    && after.rows == s.rows + [Row(TestKey(draw), None, Missing, TestEmbed(note), Pending, 0, None, None, Missing, None, None)]
    && TaskOf(after, p) == TestWaiting(|s.rows|)
  }

  /** The row of a test send is settled with one more attempt, and the process is done. */
  ghost predicate TestSettled(s: System, after: System, p: Pid, row: nat, status: Status, error: Option<string>, http: Option<int>) {
    && row < |s.rows| && OnlyRow(s.rows, after.rows, row) && TaskOf(after, p) == Idle
    && Marked(s.rows[row], after.rows[row], status, error, http, true, s.now)
  }

  /** What the steps of a test send do, whatever runs in between: a fresh row, then a failure without a URL,
      or the grant, the post, the release of the grant and only then the mark the reply calls for. */
  lemma TestStepsAreExact(s: System, p: Pid, draw: nat, note: string, reply: SenderReply)
    requires Sound(s)
    ensures TaskOf(s, p) == Idle && !HasKey(s.rows, TestKey(draw)) ==> TestQueued(s, DoBeginTest(s, p, draw, note), p, draw, note)
    ensures TaskOf(s, p).TestWaiting? ==>
              && TestSettled(s, DoFailTest(s, p), p, TaskOf(s, p).row, Failed, Some("no webhook configured"), None)
              && DoFailTest(s, p).grant == s.grant
    ensures TaskOf(s, p).TestWaiting? ==>
              DoGrantTest(s, p) == if s.grant.Some? then s else Set(s, p, TestPosting(TaskOf(s, p).row)).(grant := Some(p))
    ensures TaskOf(s, p).TestPosting? ==>
              var after := DoReplyTest(s, p, reply);
              && after.rows == s.rows
              && (NormalizeOutcome(reply) == None ==> TaskOf(after, p) == Idle && after.grant == None)
              && (NormalizeOutcome(reply).Some? ==>
                    TaskOf(after, p) == TestAnswered(TaskOf(s, p).row, NormalizeOutcome(reply).value) && after.grant == Some(p))
    ensures TaskOf(s, p).TestAnswered? ==>
              var after := DoReleaseTest(s, p);
              && after.rows == s.rows && after.grant == None
              && TaskOf(after, p) == TestUnmarked(TaskOf(s, p).row, TaskOf(s, p).outcome)
    ensures TaskOf(s, p).TestUnmarked? ==>
              var outcome := TaskOf(s, p).outcome;
              && TestSettled(s, DoWriteTest(s, p), p, TaskOf(s, p).row, if outcome.ok then Sent else Failed, outcome.err, outcome.status)
              && DoWriteTest(s, p).grant == s.grant
  {
    assert TestTask(s, TaskOf(s, p));
    assert InsideGrant(TaskOf(s, p)) <==> s.grant == Some(p);
  }

  // ---------------------------------------------------------------- opening, closing, and the steps of others

  /** Nothing but the table changed. */
  ghost predicate OnlyRows(s: System, after: System) {
    after == s.(rows := after.rows, log := after.log)
  }

  /** The row of an enqueue is there unless a row had its key; every other row stays as it was. */
  ghost predicate Enqueued(before: seq<Row>, after: seq<Row>, id: nat, eventTime: Stamp) {
    after == if exists k :: 0 <= k < |before| && before[k].key == DiscoveryKey(id) then before
             else before + [Row(DiscoveryKey(id), Some(id), eventTime, DiscoveryEmbed(id), Pending, 0, None, None, Missing, None, None)]
  }

  /** The drain has met a 429 or is past its last row. */
  predicate IsThrough(t: Task) {
    t.Draining? && (t.phase.Leaving? || (t.phase.Choosing? && t.next == |t.queue|))
  }

  /** A drain begins only with the grant free, reads the policy that is stored at that moment, and ends only
      after its last row or a 429.  Enqueueing, requeueing, setting the policy and the clock need no grant and
      do just what they say. */
  lemma FrameStepsAreExact(s: System, a: Action)
    ensures a.BeginDrain? ==>
              && (Step(s, a) != s <==> s.grant == None && TaskOf(s, a.p) == Idle)
              && (Step(s, a) != s ==> Step(s, a).rows == s.rows && Step(s, a).grant == Some(a.p)
                                      && TaskOf(Step(s, a), a.p) == Granted(a.includeHeld))
    ensures a.ReadPolicy? && TaskOf(s, a.p).Granted? ==>
              Step(s, a).rows == s.rows && TaskOf(Step(s, a), a.p) == PolicyRead(TaskOf(s, a.p).includeHeld, s.raw)
    ensures a.EndDrain? ==>
              && (Step(s, a) != s <==> IsThrough(TaskOf(s, a.p)))
              && (Step(s, a) != s ==> Step(s, a).rows == s.rows && Step(s, a).grant == None && TaskOf(Step(s, a), a.p) == Idle)
    ensures a.Enqueue? ==> OnlyRows(s, Step(s, a)) && Enqueued(s.rows, Step(s, a).rows, a.id, a.eventTime)
    ensures a.RequeueAll? ==>
              && OnlyRows(s, Step(s, a)) && |Step(s, a).rows| == |s.rows|
              && forall k :: 0 <= k < |s.rows| ==>
                   if s.rows[k].status == Failed then Refreshed(s.rows[k], Step(s, a).rows[k]) else Step(s, a).rows[k] == s.rows[k]
    ensures a.SetPolicy? ==> Step(s, a) == s.(raw := Some(a.value))
    ensures a.Tick? ==> Step(s, a) == s.(now := a.to)
  {
    var after := Step(s, a);
    if a.BeginDrain? && s.grant == None && TaskOf(s, a.p) == Idle { assert after.grant != s.grant; }
    if a.EndDrain? && after != s { assert TaskOf(after, a.p) == Idle; }
    if a.EndDrain? && IsThrough(TaskOf(s, a.p)) { assert |after.log| > |s.log|; }
  }
}
