/**
 The sequential drain of Drain.dfy is one of the histories of Protocol.dfy: the run in which nothing else
 moves while the drain holds the grant.  And the one gap a rate limit has: a process that is cut short
 between hearing a 429 and writing the floor leaves no floor behind.
 */
module DrainRefinement {
  import opened Common
  import opened DeliveryPolicy
  import opened Outbox
  import opened Drain
  import opened Protocol
  import opened DeliveryHistory

  lemma RunTwo(s: System, a: Action, b: Action)
    ensures Run(s, [a, b]) == Step(Step(s, a), b)
  {
    assert [a, b][1..] == [b];
    assert [b][1..] == [];
    assert Run(s, [a, b]) == Run(Step(s, a), [b]) == Run(Step(Step(s, a), b), []);
  }

  lemma RunThree(s: System, a: Action, b: Action, c: Action)
    ensures Run(s, [a, b, c]) == Step(Step(Step(s, a), b), c)
  {
    assert [a, b, c][1..] == [b, c];
    RunTwo(Step(s, a), b, c);
  }

  // ---------------------------------------------------------------- one turn

  /** The actions of process `p` at one queue position, with the clock readings of the turn. */
  function Look(p: Pid, r: Reading): seq<Action> {
    [Tick(r.checkedAt), Choose(p)]
  }

  function Finish(p: Pid, r: Reading): Action {
    if r.stored then Write(p) else FailWrite(p)
  }

  function Act(p: Pid, r: Reading): seq<Action> {
    [Reply(p, r.reply), Tick(r.recordedAt), Finish(p, r)]
  }

  function Turn(p: Pid, r: Reading): seq<Action> {
    Look(p, r) + Act(p, r)
  }

  function Turns(p: Pid, k: nat, world: nat -> Reading): seq<Action> {
    if k == 0 then [] else Turns(p, k - 1, world) + Turn(p, world(k - 1))
  }

  /** The rows a log names as posted, in order. */
  function PostedRows(log: seq<Event>): seq<nat> {
    if log == [] then []
    else
      var e := log[|log| - 1];
      PostedRows(log[..|log| - 1]) + if e.Posted? then [e.row] else []
  }

  lemma PostedRowsAppend(log: seq<Event>, e: Event)
    ensures PostedRows(log + [e]) == PostedRows(log) + if e.Posted? then [e.row] else []
  {
    assert (log + [e])[..|log|] == log;
  }

  /** The live system `s` stands where the sequential drain stands after `k` turns. */
  ghost predicate InStep(s: System, p: Pid, drain: nat, rows: seq<Row>, queue: seq<nat>, k: nat, includeHeld: bool,
                         raw: Option<Stamp>, d: Progress, base: seq<nat>)
    requires k <= |queue| && Queue(queue, rows)
  {
    && s.rows == d.rows && |d.rows| == |rows| && PostedRows(s.log) == base + d.posts
    && match d.stop
       case Running => TaskOf(s, p) == Draining(drain, includeHeld, raw, PicksOf(rows, queue), k, Choosing)
       case RateLimited => TaskOf(s, p).Draining? && TaskOf(s, p).phase == Leaving
       case Raised => TaskOf(s, p) == Idle
  }

  function PicksOf(rows: seq<Row>, queue: seq<nat>): seq<Picked>
    requires forall k :: 0 <= k < |queue| ==> queue[k] < |rows|
  {
    seq(|queue|, k requires 0 <= k < |queue| => Picked(queue[k], rows[queue[k]]))
  }

  /** A turn up to the sender's answer. */
  function Told(s: System, p: Pid, r: Reading): System {
    DoReply(DoChoose(s.(now := r.checkedAt), p), p, r.reply)
  }

  /** A turn, step by step. */
  function TurnOf(s: System, p: Pid, r: Reading): System {
    Step(Told(s, p, r).(now := r.recordedAt), Finish(p, r))
  }

  lemma TurnIs(s: System, p: Pid, r: Reading)
    ensures Run(s, Turn(p, r)) == TurnOf(s, p, r)
  {
    RunConcat(s, Look(p, r), Act(p, r));
    RunTwo(s, Tick(r.checkedAt), Choose(p));
    RunThree(Run(s, Look(p, r)), Reply(p, r.reply), Tick(r.recordedAt), Finish(p, r));
  }

  lemma HaltedTurn(s: System, p: Pid, r: Reading)
    requires TaskOf(s, p) == Idle || (TaskOf(s, p).Draining? && TaskOf(s, p).phase == Leaving)
    ensures TurnOf(s, p, r).rows == s.rows && TaskOf(TurnOf(s, p, r), p) == TaskOf(s, p)
    ensures PostedRows(TurnOf(s, p, r).log) == PostedRows(s.log)
  {
  }

  lemma SkippedTurn(s: System, p: Pid, r: Reading)
    requires AtTurn(s, TaskOf(s, p)) && TaskOf(s, p).phase == Choosing
    requires !EligibleAt(TaskOf(s, p).queue[TaskOf(s, p).next].copy, r.checkedAt)
    ensures var t := TaskOf(s, p);
            && TurnOf(s, p, r).rows == s.rows && TaskOf(TurnOf(s, p, r), p) == t.(next := t.next + 1)
            && PostedRows(TurnOf(s, p, r).log) == PostedRows(s.log)
  {
  }

  lemma HeldTurn(s: System, p: Pid, r: Reading, verdict: Verdict)
    requires AtTurn(s, TaskOf(s, p)) && TaskOf(s, p).phase == Choosing && verdict != Send
    requires var t := TaskOf(s, p);
             EligibleAt(t.queue[t.next].copy, r.checkedAt) && DecidedAs(t, verdict)
    ensures var t, s' := TaskOf(s, p), TurnOf(s, p, r);
            var id := t.queue[t.next].id;
            && (r.stored ==> s'.rows == s.rows[id := HoldRow(s.rows[id], verdict, r.recordedAt)]
                             && TaskOf(s', p) == t.(next := t.next + 1))
            && (!r.stored ==> s'.rows == s.rows && TaskOf(s', p) == Idle)
            && PostedRows(s'.log) == PostedRows(s.log)
  {
    var looked := DoChoose(s.(now := r.checkedAt), p);
    assert TaskOf(looked, p).phase == Holding(verdict);
  }

  lemma ToldTurn(s: System, p: Pid, r: Reading)
    requires AtTurn(s, TaskOf(s, p)) && TaskOf(s, p).phase == Choosing
    requires var t := TaskOf(s, p);
             EligibleAt(t.queue[t.next].copy, r.checkedAt) && DecidedAs(t, Send)
    ensures var t, told := TaskOf(s, p), Told(s, p, r);
            && told.rows == s.rows && PostedRows(told.log) == PostedRows(s.log) + [t.queue[t.next].id]
            && TaskOf(told, p) == if Read(r.reply).Broken? then Idle
                                  else t.(phase := Answered(r.checkedAt, Read(r.reply), r.checkedAt))
  {
    var looked, told := DoChoose(s.(now := r.checkedAt), p), Told(s, p, r);
    assert TaskOf(looked, p).phase == Posting(r.checkedAt);
    assert looked.log == s.log && told.log == s.log + [told.log[|s.log|]];
    PostedRowsAppend(s.log, told.log[|s.log|]);
  }

  lemma IdleTurn(s: System, p: Pid, r: Reading)
    requires TaskOf(s, p) == Idle
    ensures Step(s.(now := r.recordedAt), Finish(p, r)) == s.(now := r.recordedAt)
  {
  }

  lemma FinishedTurn(s: System, p: Pid, r: Reading)
    requires AtTurn(s, TaskOf(s, p)) && TaskOf(s, p).phase.Answered? && !TaskOf(s, p).phase.answer.Broken?
    ensures var t, s' := TaskOf(s, p), Step(s.(now := r.recordedAt), Finish(p, r));
            var pick, answer, t' := t.queue[t.next], t.phase.answer, TaskOf(s', p);
            && s'.rows == (if r.stored then s.rows[pick.id := Recorded(s.rows[pick.id], pick.copy, answer, r.recordedAt)] else s.rows)
            && t' == (if !r.stored then Idle else t.(next := t.next + 1, phase := if answer.Limited? then Leaving else Choosing))
            && PostedRows(s'.log) == PostedRows(s.log)
  {
    var s' := Step(s.(now := r.recordedAt), Finish(p, r));
    if s'.log != s.log {
      assert s'.log == s.log + [s'.log[|s.log|]];
      PostedRowsAppend(s.log, s'.log[|s.log|]);
    }
  }

  lemma PostedTurn(s: System, p: Pid, r: Reading)
    requires AtTurn(s, TaskOf(s, p)) && TaskOf(s, p).phase == Choosing
    requires var t := TaskOf(s, p);
             EligibleAt(t.queue[t.next].copy, r.checkedAt) && DecidedAs(t, Send)
    ensures var t, s' := TaskOf(s, p), TurnOf(s, p, r);
            var pick, answer, t' := t.queue[t.next], Read(r.reply), TaskOf(s', p);
            && s'.rows == (if r.stored then s.rows[pick.id := Recorded(s.rows[pick.id], pick.copy, answer, r.recordedAt)] else s.rows)
            && t' == (if answer.Broken? || !r.stored then Idle
                      else t.(next := t.next + 1, phase := if answer.Limited? then Leaving else Choosing))
            && PostedRows(s'.log) == PostedRows(s.log) + [pick.id]
  {
    ToldTurn(s, p, r);
    ToldIsFinished(s, Told(s, p, r), p, r);
  }

  lemma ToldIsFinished(s: System, told: System, p: Pid, r: Reading)
    requires AtTurn(s, TaskOf(s, p)) && TaskOf(s, p).phase == Choosing && told.rows == s.rows
    requires TaskOf(told, p) == if Read(r.reply).Broken? then Idle
                                else TaskOf(s, p).(phase := Answered(r.checkedAt, Read(r.reply), r.checkedAt))
    ensures var t, s' := TaskOf(s, p), Step(told.(now := r.recordedAt), Finish(p, r));
            var pick, answer, t' := t.queue[t.next], Read(r.reply), TaskOf(s', p);
            && s'.rows == (if r.stored then s.rows[pick.id := Recorded(s.rows[pick.id], pick.copy, answer, r.recordedAt)] else s.rows)
            && t' == (if answer.Broken? || !r.stored then Idle
                      else t.(next := t.next + 1, phase := if answer.Limited? then Leaving else Choosing))
            && PostedRows(s'.log) == PostedRows(told.log)
  {
    var t := TaskOf(s, p);
    if Read(r.reply).Broken? {
      assert s.rows == s.rows[t.queue[t.next].id := s.rows[t.queue[t.next].id]];
      IdleTurn(told, p, r);
    } else {
      FinishedTurn(told, p, r);
    }
  }

  lemma LiveTurn(s: System, p: Pid, drain: nat, rows: seq<Row>, queue: seq<nat>, k: nat, includeHeld: bool,
                 raw: Option<Stamp>, d: Progress, base: seq<nat>, r: Reading)
    requires k < |queue| && Queue(queue, rows) && d.stop == Running
    requires InStep(s, p, drain, rows, queue, k, includeHeld, raw, d, base)
    ensures var d' := Visit(d, rows[queue[k]], queue[k], Mode(includeHeld, LoadPolicy(raw)), r);
            InStep(TurnOf(s, p, r), p, drain, rows, queue, k + 1, includeHeld, raw, d', base)
  {
    var copy := rows[queue[k]];
    assert PicksOf(rows, queue)[k] == Picked(queue[k], copy);
    var verdict := VerdictFor(copy, includeHeld, LoadPolicy(raw));
    if !EligibleAt(copy, r.checkedAt) {
      SkippedTurn(s, p, r);
    } else if verdict != Send {
      HeldTurn(s, p, r, verdict);
    } else {
      PostedTurn(s, p, r);
    }
  }

  lemma {:induction false} TurnsInStep(s: System, p: Pid, drain: nat, rows: seq<Row>, queue: seq<nat>, k: nat,
                                       includeHeld: bool, raw: Option<Stamp>, world: nat -> Reading)
    requires k <= |queue| && Queue(queue, rows)
    requires InStep(s, p, drain, rows, queue, 0, includeHeld, raw, Start(rows), PostedRows(s.log))
    ensures InStep(Run(s, Turns(p, k, world)), p, drain, rows, queue, k, includeHeld, raw,
                   Drained(rows, queue, k, Mode(includeHeld, LoadPolicy(raw)), world), PostedRows(s.log))
  {
    if k > 0 {
      TurnsInStep(s, p, drain, rows, queue, k - 1, includeHeld, raw, world);
      RunConcat(s, Turns(p, k - 1, world), Turn(p, world(k - 1)));
      var before := Run(s, Turns(p, k - 1, world));
      TurnIs(before, p, world(k - 1));
      NextTurn(rows, queue, k - 1, Mode(includeHeld, LoadPolicy(raw)), world);
      NextInStep(before, p, drain, rows, queue, k - 1, includeHeld, raw,
                 Drained(rows, queue, k - 1, Mode(includeHeld, LoadPolicy(raw)), world),
                 Drained(rows, queue, k, Mode(includeHeld, LoadPolicy(raw)), world), PostedRows(s.log), world(k - 1));
    }
  }

  lemma NextInStep(s: System, p: Pid, drain: nat, rows: seq<Row>, queue: seq<nat>, k: nat, includeHeld: bool,
                   raw: Option<Stamp>, d: Progress, next: Progress, base: seq<nat>, r: Reading)
    requires k < |queue| && Queue(queue, rows) && InStep(s, p, drain, rows, queue, k, includeHeld, raw, d, base)
    requires |d.rows| == |rows|
    requires next == if d.stop != Running then d else Visit(d, rows[queue[k]], queue[k], Mode(includeHeld, LoadPolicy(raw)), r)
    ensures InStep(TurnOf(s, p, r), p, drain, rows, queue, k + 1, includeHeld, raw, next, base)
  {
    if d.stop == Running {
      LiveTurn(s, p, drain, rows, queue, k, includeHeld, raw, d, base, r);
    } else {
      HaltedTurn(s, p, r);
    }
  }

  // ---------------------------------------------------------------- the whole drain

  function Solo(p: Pid, includeHeld: bool, n: nat, world: nat -> Reading): seq<Action> {
    Opening(p, includeHeld) + (Turns(p, n, world) + [EndDrain(p)])
  }

  /** From any quiet system a drain that is left alone writes exactly the rows of the sequential drain, posts
      exactly its posts, in its order, and gives the grant back.  So everything proved of every history holds
      of the sequential drain too. */
  lemma SequentialDrainIsAHistory(s: System, p: Pid, includeHeld: bool, world: nat -> Reading)
    requires Sound(s) && s.grant == None && TaskOf(s, p) == Idle
    ensures var queue := SelectedIds(s.rows, includeHeld);
            var end := Run(s, Solo(p, includeHeld, |queue|, world));
            var d := Drained(s.rows, queue, |queue|, Mode(includeHeld, LoadPolicy(s.raw)), world);
            && end.rows == d.rows && PostedRows(end.log) == PostedRows(s.log) + d.posts
            && end.grant == None && TaskOf(end, p) == Idle
  {
    var queue := SelectedIds(s.rows, includeHeld);
    var selected := Run(s, Opening(p, includeHeld));
    Opened(s, p, includeHeld, queue);
    TurnsInStep(selected, p, s.drains, s.rows, queue, |queue|, includeHeld, s.raw, world);
    GrantAfterTurns(selected, p, |queue|, world);
    ThreeParts(s, Opening(p, includeHeld), Turns(p, |queue|, world), [EndDrain(p)]);
    Closed(Run(selected, Turns(p, |queue|, world)), p, s.drains, s.rows, queue, includeHeld, s.raw,
           Drained(s.rows, queue, |queue|, Mode(includeHeld, LoadPolicy(s.raw)), world), PostedRows(s.log));
  }

  /** A drain that is through its turns gives the grant back and changes nothing else. */
  lemma Closed(s: System, p: Pid, drain: nat, rows: seq<Row>, queue: seq<nat>, includeHeld: bool, raw: Option<Stamp>,
               d: Progress, base: seq<nat>)
    requires Queue(queue, rows) && InStep(s, p, drain, rows, queue, |queue|, includeHeld, raw, d, base) && GrantFollows(s, p)
    ensures var end := Run(s, [EndDrain(p)]);
            end.rows == d.rows && PostedRows(end.log) == base + d.posts && end.grant == None && TaskOf(end, p) == Idle
  {
    assert [EndDrain(p)][1..] == [];
    assert Run(s, [EndDrain(p)]) == DoEndDrain(s, p);
  }

  /** Taking the grant, reading the policy and selecting bring the process to its first turn. */
  lemma Opened(s: System, p: Pid, includeHeld: bool, queue: seq<nat>)
    requires s.grant == None && TaskOf(s, p) == Idle && queue == SelectedIds(s.rows, includeHeld)
    ensures var selected := Run(s, Opening(p, includeHeld));
            && InStep(selected, p, s.drains, s.rows, queue, 0, includeHeld, s.raw, Start(s.rows), PostedRows(selected.log))
            && PostedRows(selected.log) == PostedRows(s.log) && selected.grant == Some(p)
  {
    RunThree(s, BeginDrain(p, includeHeld), ReadPolicy(p), Select(p));
    assert Pick(s.rows, includeHeld) == PicksOf(s.rows, queue);
    PostedRowsAppend(s.log, Selected(s.drains, IdsOf(PicksOf(s.rows, queue))));
  }

  /** Turns of one drain leave the grant with its process, or free once the process is idle. */
  ghost predicate GrantFollows(s: System, p: Pid) {
    s.grant == if TaskOf(s, p) == Idle then None else Some(p)
  }

  lemma GrantAfterTurn(s: System, p: Pid, r: Reading)
    requires GrantFollows(s, p) && (TaskOf(s, p) == Idle || TaskOf(s, p).Draining?)
    ensures var s' := TurnOf(s, p, r);
            GrantFollows(s', p) && (TaskOf(s', p) == Idle || TaskOf(s', p).Draining?)
  {
  }

  lemma {:induction false} GrantAfterTurns(s: System, p: Pid, k: nat, world: nat -> Reading)
    requires GrantFollows(s, p) && (TaskOf(s, p) == Idle || TaskOf(s, p).Draining?)
    ensures var s' := Run(s, Turns(p, k, world));
            GrantFollows(s', p) && (TaskOf(s', p) == Idle || TaskOf(s', p).Draining?)
  {
    if k > 0 {
      GrantAfterTurns(s, p, k - 1, world);
      RunConcat(s, Turns(p, k - 1, world), Turn(p, world(k - 1)));
      TurnIs(Run(s, Turns(p, k - 1, world)), p, world(k - 1));
      GrantAfterTurn(Run(s, Turns(p, k - 1, world)), p, world(k - 1));
    }
  }

  // ---------------------------------------------------------------- the gap of a rate limit

  /** A drain that has just heard a 429: if it writes, the row gets its floor and the deferral is on
      record; if it is cut short instead, the table stays as it was and the grant is free again. */
  lemma FloorNeedsItsWrite(s: System, p: Pid)
    requires Sound(s) && AtTurn(s, TaskOf(s, p))
    requires TaskOf(s, p).phase.Answered? && TaskOf(s, p).phase.answer.Limited?
    ensures var t := TaskOf(s, p);
            var id, wait := t.queue[t.next].id, t.phase.answer.wait;
            && Step(s, Write(p)).rows == s.rows[id := s.rows[id].(notBefore := At(s.now + wait))]
            && Step(s, Write(p)).log == s.log + [Deferred(id, t.drain, t.phase.answeredAt, wait, s.now + wait)]
            && Step(s, Abort(p)).rows == s.rows && Step(s, Abort(p)).log == s.log && Step(s, Abort(p)).grant == None
  {
    Holder(s, p);
  }

  ghost predicate TicksStay(actions: seq<Action>, now: Instant) {
    forall k :: 0 <= k < |actions| && actions[k].Tick? ==> actions[k].to == now
  }

  lemma {:induction false} StayingIsForward(s: System, actions: seq<Action>)
    requires TicksStay(actions, s.now)
    ensures ForwardRun(s, actions)
    decreases |actions|
  {
    if actions != [] { StayingIsForward(Step(s, actions[0]), actions[1..]); }
  }

  lemma {:induction false} LogOnlyGrows(s: System, actions: seq<Action>)
    ensures s.log <= Run(s, actions).log
    decreases |actions|
  {
    if actions != [] { LogOnlyGrows(Step(s, actions[0]), actions[1..]); }
  }

  /** A clock that stands still and a sender that accepts everything. */
  function Still(now: Instant): nat -> Reading {
    (k: nat) => Reading(now, Two(true, None), now, true)
  }

  lemma {:induction false} StillTurnsStay(p: Pid, k: nat, now: Instant)
    ensures TicksStay(Turns(p, k, Still(now)), now)
  {
    if k > 0 { StillTurnsStay(p, k - 1, now); }
  }

  /** A drain at a row it selected that is eligible and cleared posts it. */
  lemma ChosenAndPosted(s: System, p: Pid, now: Instant)
    requires AtTurn(s, TaskOf(s, p)) && TaskOf(s, p).phase == Choosing
    requires var t := TaskOf(s, p);
             EligibleAt(t.queue[t.next].copy, now) && DecidedAs(t, Send)
    ensures var t := TaskOf(s, p);
            var end := Run(s, Closing(p, now));
            && |end.log| == |s.log| + 1 && end.log[|s.log|].Posted?
            && end.log[|s.log|].row == t.queue[t.next].id && end.log[|s.log|].startedAt == now
            && end.log[|s.log|].answer.Accepted?
  {
    RunThree(s, Tick(now), Choose(p), Reply(p, Two(true, None)));
    var looked := DoChoose(s.(now := now), p);
    assert TaskOf(looked, p).phase == Posting(now);
  }

  /** The last event is an accepted post of row `id` that started at `now`. */
  predicate AcceptedLast(log: seq<Event>, id: nat, now: Instant) {
    log != [] && var last := log[|log| - 1]; last.Posted? && last.answer.Accepted? && last.row == id && last.startedAt == now
  }

  /** From any quiet system a row that is selectable, eligible and cleared can be posted without the clock
      moving: the drain accepts its way through the queue up to it. */
  lemma QuietSystemCanPost(s: System, p: Pid, includeHeld: bool, id: nat) returns (actions: seq<Action>)
    requires Sound(s) && s.grant == None && TaskOf(s, p) == Idle && id < |s.rows|
    requires Selectable(s.rows[id], includeHeld) && EligibleAt(s.rows[id], s.now)
    requires VerdictFor(s.rows[id], includeHeld, LoadPolicy(s.raw)) == Send
    ensures TicksStay(actions, s.now)
    ensures var end := Run(s, actions);
            && s.log < end.log && AcceptedLast(end.log, id, s.now)
  {
    var queue := SelectedIds(s.rows, includeHeld);
    var j: nat :| j < |queue| && queue[j] == id;
    actions := Opening(p, includeHeld) + (Turns(p, j, Still(s.now)) + Closing(p, s.now));
    TicksAllStay(p, includeHeld, j, s.now);
    PostsAt(s, p, includeHeld, queue, j);
  }

  lemma PostsAt(s: System, p: Pid, includeHeld: bool, queue: seq<nat>, j: nat)
    requires s.grant == None && TaskOf(s, p) == Idle && queue == SelectedIds(s.rows, includeHeld) && j < |queue|
    requires EligibleAt(s.rows[queue[j]], s.now) && VerdictFor(s.rows[queue[j]], includeHeld, LoadPolicy(s.raw)) == Send
    ensures var end := Run(s, Opening(p, includeHeld) + (Turns(p, j, Still(s.now)) + Closing(p, s.now)));
            && s.log < end.log && AcceptedLast(end.log, queue[j], s.now)
  {
    ThreeParts(s, Opening(p, includeHeld), Turns(p, j, Still(s.now)), Closing(p, s.now));
    var selected := Run(s, Opening(p, includeHeld));
    Opened(s, p, includeHeld, queue);
    StandsAt(s, selected, p, includeHeld, queue, j);
    ChosenAndPosted(Run(selected, Turns(p, j, Still(s.now))), p, s.now);
  }

  function Opening(p: Pid, includeHeld: bool): seq<Action> {
    [BeginDrain(p, includeHeld), ReadPolicy(p), Select(p)]
  }

  function Closing(p: Pid, now: Instant): seq<Action> {
    [Tick(now), Choose(p), Reply(p, Two(true, None))]
  }

  lemma TicksAllStay(p: Pid, includeHeld: bool, j: nat, now: Instant)
    ensures TicksStay(Opening(p, includeHeld) + (Turns(p, j, Still(now)) + Closing(p, now)), now)
  {
    StillTurnsStay(p, j, now);
  }

  lemma ThreeParts(s: System, first: seq<Action>, second: seq<Action>, third: seq<Action>)
    ensures Run(s, first + (second + third)) == Run(Run(Run(s, first), second), third)
    ensures s.log <= Run(Run(s, first), second).log <= Run(s, first + (second + third)).log
  {
    RunConcat(s, first, second + third);
    RunConcat(Run(s, first), second, third);
    LogOnlyGrows(s, first);
    LogOnlyGrows(Run(s, first), second);
    LogOnlyGrows(Run(Run(s, first), second), third);
  }

  lemma StandsAt(s: System, selected: System, p: Pid, includeHeld: bool, queue: seq<nat>, j: nat)
    requires s.grant == None && TaskOf(s, p) == Idle && queue == SelectedIds(s.rows, includeHeld) && j < |queue|
    requires InStep(selected, p, s.drains, s.rows, queue, 0, includeHeld, s.raw, Start(s.rows), PostedRows(selected.log))
    requires VerdictFor(s.rows[queue[j]], includeHeld, LoadPolicy(s.raw)) == Send
    ensures var there := Run(selected, Turns(p, j, Still(s.now)));
            var t := TaskOf(there, p);
            && AtTurn(there, t) && t.phase == Choosing && t.queue[t.next] == Picked(queue[j], s.rows[queue[j]])
            && DecidedAs(t, Send)
  {
    var mode := Mode(includeHeld, LoadPolicy(s.raw));
    TurnsInStep(selected, p, s.drains, s.rows, queue, j, includeHeld, s.raw, Still(s.now));
    NothingHalts(s.rows, queue, j, mode, Still(s.now));
    assert PicksOf(s.rows, queue)[j] == Picked(queue[j], s.rows[queue[j]]);
  }

  /** Without that write the wait is not respected, in any state: when a process that has heard a 429 for a
      row is cut short, the row can be posted again without the clock moving, as long as it is still selectable, was
      under no earlier floor, and is cleared by the stored policy (a replay clears everything). */
  lemma LimitedRowCanBePostedAgain(s: System, p: Pid, includeHeld: bool) returns (actions: seq<Action>)
    requires Sound(s) && AtTurn(s, TaskOf(s, p))
    requires TaskOf(s, p).phase.Answered? && TaskOf(s, p).phase.answer.Limited?
    requires var row := s.rows[TaskOf(s, p).queue[TaskOf(s, p).next].id];
             && Selectable(row, includeHeld) && EligibleAt(row, s.now)
             && VerdictFor(row, includeHeld, LoadPolicy(s.raw)) == Send
    ensures TicksStay(actions, s.now)
    ensures var end := Run(Step(s, Abort(p)), actions);
            && s.log < end.log && AcceptedLast(end.log, TaskOf(s, p).queue[TaskOf(s, p).next].id, s.now)
  {
    FloorNeedsItsWrite(s, p);
    StepIsSound(s, Abort(p));
    actions := QuietSystemCanPost(Step(s, Abort(p)), p, includeHeld, TaskOf(s, p).queue[TaskOf(s, p).next].id);
  }

  lemma {:induction false} ForwardConcat(s: System, first: seq<Action>, second: seq<Action>)
    requires ForwardRun(s, first) && ForwardRun(Run(s, first), second)
    ensures ForwardRun(s, first + second)
    decreases |first|
  {
    if first == [] {
      assert first + second == second;
    } else {
      assert (first + second)[1..] == first[1..] + second;
      ForwardConcat(Step(s, first[0]), first[1..], second);
    }
  }

  /** In a history whose clock never goes back, the row of a turn that posts a discovery row can always be
      posted again by a replay: it is still what the drain selected, and its floor has passed. */
  lemma TurnRowIsReplayable(s: System, p: Pid)
    requires Sound(s) && FloorsRespected(s) && AtTurn(s, TaskOf(s, p)) && TaskOf(s, p).phase.Answered?
    requires IsDiscovery(s, TaskOf(s, p).queue[TaskOf(s, p).next].id)
    ensures var row := s.rows[TaskOf(s, p).queue[TaskOf(s, p).next].id];
            Selectable(row, true) && EligibleAt(row, s.now) && VerdictFor(row, true, LoadPolicy(s.raw)) == Send
  {
    var t := TaskOf(s, p);
    assert SnapshotHolds(s, t) && PickHolds(s, t, t.next) && PostingAfterFloors(s, t);
  }

  lemma LimitIsLost(s: System, p: Pid) returns (after: seq<Action>)
    requires Sound(s) && FloorsRespected(s) && AtTurn(s, TaskOf(s, p))
    requires TaskOf(s, p).phase.Answered? && TaskOf(s, p).phase.answer.Limited?
    requires IsDiscovery(s, TaskOf(s, p).queue[TaskOf(s, p).next].id)
    ensures TicksStay(after, s.now)
    ensures var end := Run(Step(s, Abort(p)), after);
            s.log < end.log && AcceptedLast(end.log, TaskOf(s, p).queue[TaskOf(s, p).next].id, s.now)
  {
    TurnRowIsReplayable(s, p);
    after := LimitedRowCanBePostedAgain(s, p, true);
  }

  /** So every such history in which a drain has just heard a 429 for a discovery row has a continuation in
      which the process is cut short and the row is posted again at once. */
  lemma HeardLimitCanBeLost(s0: System, before: seq<Action>, p: Pid) returns (after: seq<Action>)
    requires Initial(s0) && ForwardRun(s0, before)
    requires var s := Run(s0, before);
             && AtTurn(s, TaskOf(s, p)) && TaskOf(s, p).phase.Answered? && TaskOf(s, p).phase.answer.Limited?
             && IsDiscovery(s, TaskOf(s, p).queue[TaskOf(s, p).next].id)
    ensures ForwardRun(s0, before + ([Abort(p)] + after))
    ensures var s, end := Run(s0, before), Run(s0, before + ([Abort(p)] + after));
            s.log < end.log && AcceptedLast(end.log, TaskOf(s, p).queue[TaskOf(s, p).next].id, s.now)
  {
    InitiallyDelivering(s0);
    RunDelivers(s0, before);
    RunRespectsFloors(s0, before);
    after := LimitIsLost(Run(s0, before), p);
    StayingIsForward(Step(Run(s0, before), Abort(p)), after);
    StepThen(s0, before, Abort(p), after);
  }

  /** From event `n` on, every post of row `i` starts at `until` or later. */
  ghost predicate PostsWait(log: seq<Event>, n: nat, i: nat, until: Instant) {
    forall k: nat :: n <= k < |log| && log[k].Posted? && log[k].row == i ==> until <= log[k].startedAt
  }

  /** And that holds in every continuation whose clock never goes back. */
  ghost predicate Respected(s: System, n: nat, i: nat, until: Instant) {
    forall after: seq<Action> :: ForwardRun(s, after) ==> PostsWait(Run(s, after).log, n, i, until)
  }

  lemma {:induction false} DiscoveryStays(s: System, actions: seq<Action>, i: nat)
    requires Sound(s) && IsDiscovery(s, i)
    ensures IsDiscovery(Run(s, actions), i)
    decreases |actions|
  {
    if actions != [] {
      StepIsSound(s, actions[0]);
      DiscoveriesStay(s, actions[0], i);
      DiscoveryStays(Step(s, actions[0]), actions[1..], i);
    }
  }

  /** The clock stands at `from` or later, and so it did at the start of every post since event `n`. */
  ghost predicate Late(s: System, n: nat, from: Instant) {
    && from <= s.now
    && (forall p: Pid :: LateTask(TaskOf(s, p), from))
    && (forall k: nat :: n <= k < |s.log| && s.log[k].Posted? ==> from <= s.log[k].startedAt)
  }

  predicate LateTask(t: Task, from: Instant) {
    t.Draining? && (t.phase.Posting? || t.phase.Answered?) ==> from <= t.phase.startedAt
  }

  lemma LateAtTurn(s: System, a: Action, n: nat, from: Instant)
    requires Late(s, n, from) && (a.Choose? || a.Reply? || a.Write?)
    ensures Late(Step(s, a), n, from)
  {
    assert LateTask(TaskOf(s, a.p), from);
    var s' := Step(s, a);
    forall q: Pid ensures LateTask(TaskOf(s', q), from) {
      assert LateTask(TaskOf(s, q), from);
    }
  }

  lemma LateElsewhere(s: System, a: Action, n: nat, from: Instant)
    requires Late(s, n, from) && Forward(s, a) && !a.Choose? && !a.Reply? && !a.Write?
    ensures Late(Step(s, a), n, from)
  {
    OtherStepsKeepPosts(s, a);
    var s' := Step(s, a);
    forall q: Pid ensures LateTask(TaskOf(s', q), from) {
      assert LateTask(TaskOf(s, q), from);
    }
  }

  lemma {:induction false} LateStays(s: System, actions: seq<Action>, n: nat, from: Instant)
    requires Late(s, n, from) && ForwardRun(s, actions)
    ensures Late(Run(s, actions), n, from)
    decreases |actions|
  {
    if actions != [] {
      var a := actions[0];
      if a.Choose? || a.Reply? || a.Write? { LateAtTurn(s, a, n, from); } else { LateElsewhere(s, a, n, from); }
      LateStays(Step(s, a), actions[1..], n, from);
    }
  }

  lemma WrittenLimitIsRespected(s0: System, before: seq<Action>, p: Pid)
    requires Initial(s0) && ForwardRun(s0, before)
    requires var s := Run(s0, before);
             && AtTurn(s, TaskOf(s, p)) && TaskOf(s, p).phase.Answered? && TaskOf(s, p).phase.answer.Limited?
             && IsDiscovery(s, TaskOf(s, p).queue[TaskOf(s, p).next].id)
    ensures var s := Run(s0, before);
            var t := TaskOf(s, p);
            Respected(Step(s, Write(p)), |s.log|, t.queue[t.next].id, t.phase.answeredAt + t.phase.answer.wait)
  {
    InitiallyDelivering(s0);
    RunDelivers(s0, before);
    var s := Run(s0, before);
    var t, s', n := TaskOf(s, p), Step(s, Write(p)), |s.log|;
    var id, until := t.queue[t.next].id, t.phase.answeredAt + t.phase.answer.wait;
    FloorNeedsItsWrite(s, p);
    StepIsSound(s, Write(p));
    forall after: seq<Action> | ForwardRun(s', after) ensures PostsWait(Run(s', after).log, n, id, until) {
      StepThen(s0, before, Write(p), after);
      LogOnlyGrows(s', after);
      DiscoveryStays(s', after, id);
      var log := Run(s', after).log;
      assert log[n] == s'.log[n];
      forall k: nat | n <= k < |log| && log[k].Posted? && log[k].row == id ensures until <= log[k].startedAt {
        RateLimitIsWaitedOut(s0, before + ([Write(p)] + after), n, k);
      }
    }
  }

  lemma UnwrittenLimitIsRespectedLate(s0: System, before: seq<Action>, p: Pid, until: Instant)
    requires Initial(s0) && InsideGrant(TaskOf(Run(s0, before), p)) && until <= Run(s0, before).now
    requires Step(Run(s0, before), Abort(p)).log == Run(s0, before).log
    ensures forall i: nat :: Respected(Step(Run(s0, before), Abort(p)), |Run(s0, before).log|, i, until)
  {
    InitiallyDelivering(s0);
    RunDelivers(s0, before);
    var s := Run(s0, before);
    var s', n := Step(s, Abort(p)), |s.log|;
    Holder(s, p);
    StepIsSound(s, Abort(p));
    forall q: Pid ensures LateTask(TaskOf(s', q), until) {
      assert InsideGrant(TaskOf(s', q)) <==> s'.grant == Some(q);
    }
    forall i: nat, after: seq<Action> | ForwardRun(s', after) ensures PostsWait(Run(s', after).log, n, i, until) {
      LateStays(s', after, n, until);
    }
  }

  lemma UnwrittenLimitIsBroken(s: System, p: Pid, until: Instant)
    requires Sound(s) && FloorsRespected(s) && AtTurn(s, TaskOf(s, p))
    requires TaskOf(s, p).phase.Answered? && TaskOf(s, p).phase.answer.Limited?
    requires IsDiscovery(s, TaskOf(s, p).queue[TaskOf(s, p).next].id) && s.now < until
    ensures !Respected(Step(s, Abort(p)), |s.log|, TaskOf(s, p).queue[TaskOf(s, p).next].id, until)
  {
    var after := LimitIsLost(s, p);
    StayingIsForward(Step(s, Abort(p)), after);
    var log := Run(Step(s, Abort(p)), after).log;
    assert log[|log| - 1].startedAt < until;
  }

  /** A rate limit of a discovery row is respected exactly if its floor is written.  A drain has heard the 429
      and is about to write: in every continuation of a history whose clock never goes back the row waits as
      long as it was told to, if and only if the write goes through, or the wait is over when it does not. */
  lemma RateLimitIsRespectedExactly(s0: System, before: seq<Action>, p: Pid, a: Action)
    requires Initial(s0) && ForwardRun(s0, before) && (a == Write(p) || a == FailWrite(p) || a == Abort(p))
    requires var s := Run(s0, before);
             && AtTurn(s, TaskOf(s, p)) && TaskOf(s, p).phase.Answered? && TaskOf(s, p).phase.answer.Limited?
             && IsDiscovery(s, TaskOf(s, p).queue[TaskOf(s, p).next].id)
    ensures var s := Run(s0, before);
            var t := TaskOf(s, p);
            var until := t.phase.answeredAt + t.phase.answer.wait;
            Respected(Step(s, a), |s.log|, t.queue[t.next].id, until) <==> a == Write(p) || until <= s.now
  {
    var s := Run(s0, before);
    var t := TaskOf(s, p);
    var until := t.phase.answeredAt + t.phase.answer.wait;
    if a == Write(p) {
      WrittenLimitIsRespected(s0, before, p);
    } else {
      assert Step(s, a) == Step(s, Abort(p)) && Step(s, a).log == s.log;
      if until <= s.now {
        UnwrittenLimitIsRespectedLate(s0, before, p, until);
      } else {
        InitiallyDelivering(s0);
        RunDelivers(s0, before);
        RunRespectsFloors(s0, before);
        UnwrittenLimitIsBroken(s, p, until);
      }
    }
  }

  lemma StepThen(s0: System, before: seq<Action>, a: Action, more: seq<Action>)
    requires ForwardRun(s0, before) && Forward(Run(s0, before), a) && ForwardRun(Step(Run(s0, before), a), more)
    ensures Run(s0, before + ([a] + more)) == Run(Step(Run(s0, before), a), more)
    ensures ForwardRun(s0, before + ([a] + more))
  {
    RunConcat(s0, before, [a] + more);
    assert ([a] + more)[1..] == more;
    ForwardConcat(s0, before, [a] + more);
  }

  // ---------------------------------------------------------------- a refusal that was none

  /** A refused post is no proof that nothing arrived.  Whenever a drain has heard a refusal of a discovery row
      that leaves it attempts, the history can go on so that no process is cut short with anything in hand and
      the far end has accepted the row twice. */
  lemma RefusalCanBeAcceptedTwice(s0: System, before: seq<Action>, p: Pid) returns (after: seq<Action>)
    requires Initial(s0) && ForwardRun(s0, before)
    requires var s := Run(s0, before);
             && AtTurn(s, TaskOf(s, p)) && TaskOf(s, p).phase.Answered? && TaskOf(s, p).phase.answer.Refused?
             && var pick := TaskOf(s, p).queue[TaskOf(s, p).next];
                IsDiscovery(s, pick.id) && s.rows[pick.id].attempts + 1 < MAX_ATTEMPTS
    ensures var s := Run(s0, before);
            var id := TaskOf(s, p).queue[TaskOf(s, p).next].id;
            var recorded := Step(Step(s, Write(p)), Abort(p));
            && TicksStay(after, s.now)
            && recorded.log == s.log + [Counted(id, TaskOf(s, p).drain)] && recorded.log < Run(recorded, after).log
            && FarAcceptances(Run(recorded, after).log, id, Everything()) >= 2
  {
    InitiallyDelivering(s0);
    RunDelivers(s0, before);
    RunRespectsFloors(s0, before);
    after := RefusedIsRepeated(Run(s0, before), p);
  }

  lemma RefusedIsRepeated(s: System, p: Pid) returns (after: seq<Action>)
    requires Delivering(s) && FloorsRespected(s) && AtTurn(s, TaskOf(s, p))
    requires TaskOf(s, p).phase.Answered? && TaskOf(s, p).phase.answer.Refused?
    requires var pick := TaskOf(s, p).queue[TaskOf(s, p).next];
             IsDiscovery(s, pick.id) && s.rows[pick.id].attempts + 1 < MAX_ATTEMPTS
    ensures var id, recorded := TaskOf(s, p).queue[TaskOf(s, p).next].id, Step(Step(s, Write(p)), Abort(p));
            && TicksStay(after, s.now)
            && recorded.log == s.log + [Counted(id, TaskOf(s, p).drain)] && recorded.log < Run(recorded, after).log
            && FarAcceptances(Run(recorded, after).log, id, Everything()) >= 2
  {
    var id := TaskOf(s, p).queue[TaskOf(s, p).next].id;
    RefusedIsPending(s, p);
    StepIsSound(s, Write(p));
    StepIsSound(Step(s, Write(p)), Abort(p));
    AnsweredIsPossible(s, id);
    after := PostedOnceMore(Step(Step(s, Write(p)), Abort(p)), s.log, p, id);
  }

  lemma PostedOnceMore(s: System, log: seq<Event>, p: Pid, id: nat) returns (after: seq<Action>)
    requires Sound(s) && s.grant == None && TaskOf(s, p) == Idle && id < |s.rows| && log < s.log
    requires s.rows[id].status == Pending && EligibleAt(s.rows[id], s.now)
    requires Count(log, AcceptedPost(id)) + Count(log, DoubtfulPost(id)) >= 1
    ensures TicksStay(after, s.now) && s.log < Run(s, after).log
    ensures FarAcceptances(Run(s, after).log, id, Everything()) >= 2
  {
    after := QuietSystemCanPost(s, p, true, id);
    OneMoreAcceptance(log, Run(s, after).log, id);
  }

  lemma RefusedIsPending(s: System, p: Pid)
    requires Sound(s) && FloorsRespected(s) && AtTurn(s, TaskOf(s, p))
    requires TaskOf(s, p).phase.Answered? && TaskOf(s, p).phase.answer.Refused?
    requires var pick := TaskOf(s, p).queue[TaskOf(s, p).next];
             IsDiscovery(s, pick.id) && s.rows[pick.id].attempts + 1 < MAX_ATTEMPTS
    ensures var id, r := TaskOf(s, p).queue[TaskOf(s, p).next].id, Step(Step(s, Write(p)), Abort(p));
            && r.log == s.log + [Counted(id, TaskOf(s, p).drain)] && r.now == s.now && r.grant == None && TaskOf(r, p) == Idle
            && id < |r.rows| && r.rows[id].status == Pending && EligibleAt(r.rows[id], r.now)
            && Unwritten(s, id) == 1
  {
    TurnRowIsReplayable(s, p);
    Holder(s, p);
    var t := TaskOf(s, p);
    assert SnapshotHolds(s, t) && PickHolds(s, t, t.next);
  }

  /** What is in hand was posted and answered. */
  lemma AnsweredIsPossible(s: System, i: nat)
    requires Delivering(s) && IsDiscovery(s, i) && Unwritten(s, i) == 1
    ensures Count(s.log, AcceptedPost(i)) + Count(s.log, DoubtfulPost(i)) >= 1
  {
    assert Balanced(s, i);
    SinceIsPart(s.log, i, AnsweredPost(i));
    DoubtfulPostsSplit(s.log, i);
  }

  lemma OneMoreAcceptance(log: seq<Event>, longer: seq<Event>, i: nat)
    requires log < longer && longer[|longer| - 1].Posted? && AcceptedPost(i)(longer[|longer| - 1])
    requires Count(log, AcceptedPost(i)) + Count(log, DoubtfulPost(i)) >= 1
    ensures FarAcceptances(longer, i, Everything()) >= 2
  {
    var rest, last := longer[|log|..], longer[|longer| - 1];
    assert longer == log + rest && rest[|rest| - 1] == last;
    FilterConcat(log, rest, AcceptedPost(i));
    FilterConcat(log, rest, DoubtfulPost(i));
    FilterMember(rest, AcceptedPost(i), last);
    FarAcceptancesAreCounted(longer, i, Everything());
  }

  // ---------------------------------------------------------------- a first history

  lemma OneRowIsSelected(s: System, p: Pid)
    requires s.rows == [NotificationFor(0, At(0.0))] && TaskOf(s, p) == PolicyRead(false, None)
    ensures TaskOf(DoSelect(s, p), p) == Draining(s.drains, false, None, [Picked(0, s.rows[0])], 0, Choosing)
    ensures DoSelect(s, p).log == s.log + [Selected(s.drains, [0])]
  {
    assert SelectedIds(s.rows[..0], false) == [];
    assert SelectedIds(s.rows, false) == [0];
    assert Pick(s.rows, false) == [Picked(0, s.rows[0])];
    assert IdsOf(Pick(s.rows, false)) == [0];
  }

  lemma OneRowIsPosted(s: System, p: Pid, reply: SenderReply)
    requires s.rows == [NotificationFor(0, At(0.0))] && TaskOf(s, p) == PolicyRead(false, None) && s.now == 0.0
    ensures var s' := Run(s, [Select(p), Choose(p), Reply(p, reply)]);
            && s'.rows == s.rows && s'.raw == s.raw && s'.now == s.now
            && s'.log == s.log + [Selected(s.drains, [0])] + [Posted(0, s.drains, false, None, 0.0, 0.0, Read(reply))]
            && (Read(reply).Limited? ==>
                  TaskOf(s', p) == Draining(s.drains, false, None, [Picked(0, s.rows[0])], 0, Answered(0.0, Read(reply), 0.0)))
  {
    RunThree(s, Select(p), Choose(p), Reply(p, reply));
    OneRowIsSelected(s, p);
    var selected := DoSelect(s, p);
    var chosen := DoChoose(selected, p);
    assert TaskOf(chosen, p).phase == Posting(0.0);
  }

  const LIMITED_REPLY := Two(false, Some(RATE_LIMITED))
  const EMPTY_SYSTEM := System([], None, map[], None, 0.0, 0, [])
  const FIRST_DRAIN: seq<Action> := [Enqueue(0, At(0.0)), BeginDrain(1, false), ReadPolicy(1)]
  const FIRST_TURN: seq<Action> := [Select(1), Choose(1), Reply(1, LIMITED_REPLY)]

  lemma OneRowIsSelectedBy1()
    ensures var s := Run(EMPTY_SYSTEM, FIRST_DRAIN);
            && s.rows == [NotificationFor(0, At(0.0))] && s.raw == None && s.now == 0.0 && s.log == [] && s.drains == 0
            && TaskOf(s, 1) == PolicyRead(false, None)
  {
    RunThree(EMPTY_SYSTEM, Enqueue(0, At(0.0)), BeginDrain(1, false), ReadPolicy(1));
    var s := EMPTY_SYSTEM.(rows := [NotificationFor(0, At(0.0))]);
    assert Step(EMPTY_SYSTEM, Enqueue(0, At(0.0))) == s;
    assert Step(s, BeginDrain(1, false)) == Set(s, 1, Granted(false)).(grant := Some(1));
  }

  lemma HeardALimit()
    ensures var s := Run(EMPTY_SYSTEM, FIRST_DRAIN + FIRST_TURN);
            && s.rows == [NotificationFor(0, At(0.0))] && s.raw == None && s.now == 0.0
            && s.log == [Selected(0, [0]), Posted(0, 0, false, None, 0.0, 0.0, Limited(60.0))]
            && AtTurn(s, TaskOf(s, 1)) && TaskOf(s, 1).queue[TaskOf(s, 1).next].id == 0
            && TaskOf(s, 1).phase == Answered(0.0, Limited(60.0), 0.0)
  {
    assert Read(LIMITED_REPLY) == Limited(60.0);
    OneRowIsSelectedBy1();
    RunConcat(EMPTY_SYSTEM, FIRST_DRAIN, FIRST_TURN);
    OneRowIsPosted(Run(EMPTY_SYSTEM, FIRST_DRAIN), 1, LIMITED_REPLY);
  }

  /** And such states are reached: process 1 hears a 429 with a wait of sixty seconds and is cut short, and the
      same row is posted again in the same instant. */
  lemma RateLimitLostInAbort() returns (after: seq<Action>)
    ensures Initial(EMPTY_SYSTEM) && ForwardRun(EMPTY_SYSTEM, FIRST_DRAIN + FIRST_TURN + ([Abort(1)] + after))
    ensures var log := Run(EMPTY_SYSTEM, FIRST_DRAIN + FIRST_TURN + ([Abort(1)] + after)).log;
            && |log| > 2 && log[1].Posted? && log[1].row == 0 && log[1].answer == Limited(60.0)
            && var last := log[|log| - 1]; last.Posted? && last.row == 0 && last.startedAt < log[1].answeredAt + 60.0
  {
    HeardALimit();
    StayingIsForward(EMPTY_SYSTEM, FIRST_DRAIN + FIRST_TURN);
    after := HeardLimitCanBeLost(EMPTY_SYSTEM, FIRST_DRAIN + FIRST_TURN, 1);
  }
}
