/**
 The turns of a drain told from the row, the stored policy and the world alone: what each leaves in its row,
 what the counters count, and the floor a 429 of the built-in sender leads to.
 */
module DrainLaws {
  import opened Common
  import opened DeliveryPolicy
  import opened Outbox
  import opened WebhookUrl
  import opened Drain

  /** The row is under a retry floor. */
  predicate Early(row: Row, r: Reading) {
    row.notBefore.At? && r.checkedAt < row.notBefore.instant
  }

  ghost predicate MaySend(row: Row, includeHeld: bool, raw: Option<Stamp>) {
    includeHeld || Cleared(row.eventTime, raw)
  }

  /** Why a row that may not be sent is held. */
  function HoldReason(row: Row, raw: Option<Stamp>): Verdict {
    if raw == Some(Missing) || raw == Some(Unreadable) then HeldPolicyUnreadable
    else if !row.eventTime.At? then HeldUnknownEventTime
    else HeldBeforeCutoff
  }

  lemma VerdictIsExact(row: Row, includeHeld: bool, raw: Option<Stamp>)
    ensures VerdictFor(row, includeHeld, LoadPolicy(raw)) ==
            if MaySend(row, includeHeld, raw) then Send else HoldReason(row, raw)
  {
    FailsClosed(row.eventTime, raw);
  }

  /** The row is marked held with the reason spelled out, at no cost of an attempt. */
  ghost predicate HeldFor(row: Row, after: Row, raw: Option<Stamp>, now: Instant) {
    Marked(row, after, Held,
           Some(match HoldReason(row, raw)
                case HeldPolicyUnreadable => "held_policy_unreadable"
                case HeldUnknownEventTime => "held_unknown_event_time"
                case _ => "held_before_cutoff"), None, false, now)
  }

  /** One turn: whether it posts, and what it leaves in its row. */
  lemma TurnIsExact(row: Row, includeHeld: bool, raw: Option<Stamp>, r: Reading)
    ensures var mode := Mode(includeHeld, LoadPolicy(raw));
            var after := RowAfter(row, mode, r);
            && (Posts(row, mode, r) <==> !Early(row, r) && MaySend(row, includeHeld, raw))
            && (Early(row, r) || !r.stored ==> after == row)
            && (!Early(row, r) && r.stored && !MaySend(row, includeHeld, raw) ==> HeldFor(row, after, raw, r.recordedAt))
            && (!Early(row, r) && r.stored && MaySend(row, includeHeld, raw) ==>
                  match Read(r.reply)
                  case Accepted(http) => Marked(row, after, Sent, None, http, true, r.recordedAt)
                  case Limited(wait) => Postponed(row, after, r.recordedAt + wait)
                  case Refused(error, http) =>
                    Marked(row, after, if row.attempts >= 4 then Failed else Pending, error, http, true, r.recordedAt)
                  case Broken => after == row)
  {
    VerdictIsExact(row, includeHeld, raw);
  }

  // ---------------------------------------------------------------- the counters

  /** What a turn comes to. */
  datatype Kind = Sends | GivesUp | Retries | Holds(reason: Verdict) | Waits | Fails

  ghost function KindOf(row: Row, includeHeld: bool, raw: Option<Stamp>, r: Reading): Kind {
    if Early(row, r) then Waits
    else if !r.stored then Fails
    else if !MaySend(row, includeHeld, raw) then Holds(HoldReason(row, raw))
    else
      match Read(r.reply)
      case Accepted(_) => Sends
      case Limited(_) => Waits
      case Refused(_, _) => if row.attempts >= 4 then GivesUp else Retries
      case Broken => Fails
  }

  ghost function Kinds(rows: seq<Row>, queue: seq<nat>, n: nat, includeHeld: bool, raw: Option<Stamp>, world: nat -> Reading)
    : (kinds: seq<Kind>)
    requires n <= |queue| && Queue(queue, rows)
  {
    if n == 0 then []
    else Kinds(rows, queue, n - 1, includeHeld, raw, world) + [KindOf(rows[queue[n - 1]], includeHeld, raw, world(n - 1))]
  }

  /** The counters of a drain over turns of these kinds. */
  ghost predicate Counted(p: Progress, kinds: seq<Kind>) {
    var turns := multiset(kinds);
    && p.sent == turns[Sends] && p.failed == turns[GivesUp] && p.deferred == turns[Waits]
    && p.held == turns[Holds(HeldPolicyUnreadable)] + turns[Holds(HeldUnknownEventTime)] + turns[Holds(HeldBeforeCutoff)]
    && forall v: Verdict :: Get(p.reasons, v) == turns[Holds(v)]
  }

  /** What one turn of this kind adds to the counters. */
  ghost predicate Adds(p: Progress, q: Progress, kind: Kind) {
    && q.sent == p.sent + (if kind == Sends then 1 else 0) && q.failed == p.failed + (if kind == GivesUp then 1 else 0)
    && q.deferred == p.deferred + (if kind == Waits then 1 else 0)
    && q.held == p.held + (if kind.Holds? then 1 else 0) && (kind.Holds? ==> kind.reason != Send)
    && forall v: Verdict :: Get(q.reasons, v) == Get(p.reasons, v) + (if kind == Holds(v) then 1 else 0)
  }

  lemma TurnAdds(p: Progress, copy: Row, id: nat, includeHeld: bool, raw: Option<Stamp>, r: Reading)
    requires id < |p.rows|
    ensures Adds(p, Visit(p, copy, id, Mode(includeHeld, LoadPolicy(raw)), r), KindOf(copy, includeHeld, raw, r))
  {
    VerdictIsExact(copy, includeHeld, raw);
  }

  lemma AddedIsCounted(p: Progress, q: Progress, kinds: seq<Kind>, kind: Kind)
    requires Counted(p, kinds) && Adds(p, q, kind)
    ensures Counted(q, kinds + [kind])
  {
    assert multiset(kinds + [kind]) == multiset(kinds) + multiset{kind};
  }

  lemma TurnIsCounted(p: Progress, copy: Row, id: nat, includeHeld: bool, raw: Option<Stamp>, r: Reading, kinds: seq<Kind>)
    requires id < |p.rows| && Counted(p, kinds)
    ensures Counted(Visit(p, copy, id, Mode(includeHeld, LoadPolicy(raw)), r), kinds + [KindOf(copy, includeHeld, raw, r)])
  {
    TurnAdds(p, copy, id, includeHeld, raw, r);
    AddedIsCounted(p, Visit(p, copy, id, Mode(includeHeld, LoadPolicy(raw)), r), kinds, KindOf(copy, includeHeld, raw, r));
  }

  lemma NextCount(p: Progress, rows: seq<Row>, queue: seq<nat>, k: nat, includeHeld: bool, raw: Option<Stamp>, world: nat -> Reading)
    requires 0 < k <= |queue| && Queue(queue, rows) && |p.rows| == |rows|
    requires Counted(p, Kinds(rows, queue, k - 1, includeHeld, raw, world))
    ensures Counted(Visit(p, rows[queue[k - 1]], queue[k - 1], Mode(includeHeld, LoadPolicy(raw)), world(k - 1)),
                    Kinds(rows, queue, k, includeHeld, raw, world))
  {
    TurnIsCounted(p, rows[queue[k - 1]], queue[k - 1], includeHeld, raw, world(k - 1),
                  Kinds(rows, queue, k - 1, includeHeld, raw, world));
  }

  /** The summary of a drain counts its turns by what they came to: sent and failed the posts accepted and
      those refused for the fifth time, held the rows held, by reason, deferred the rows under a floor and the
      one answered 429.  A turn whose write raises, or that cannot read its reply, is counted nowhere. */
  lemma {:induction false} CountersAreExact(rows: seq<Row>, queue: seq<nat>, k: nat, includeHeld: bool, raw: Option<Stamp>,
                                            world: nat -> Reading)
    requires k <= |queue| && Queue(queue, rows)
    ensures CountedSoFar(rows, queue, k, Reached(rows, queue, k, Mode(includeHeld, LoadPolicy(raw)), world), includeHeld, raw, world)
  {
    if k == 0 {
      NothingIsCounted(rows, queue, includeHeld, raw, world);
    } else {
      CountersAreExact(rows, queue, k - 1, includeHeld, raw, world);
      TurnsReached(rows, queue, k, Mode(includeHeld, LoadPolicy(raw)), world);
      CountOneMore(rows, queue, k, includeHeld, raw, world);
    }
  }

  ghost predicate CountedSoFar(rows: seq<Row>, queue: seq<nat>, k: nat, n: nat, includeHeld: bool, raw: Option<Stamp>,
                               world: nat -> Reading)
    requires n <= k <= |queue| && Queue(queue, rows)
  {
    Counted(Drained(rows, queue, k, Mode(includeHeld, LoadPolicy(raw)), world), Kinds(rows, queue, n, includeHeld, raw, world))
  }

  lemma NothingIsCounted(rows: seq<Row>, queue: seq<nat>, includeHeld: bool, raw: Option<Stamp>, world: nat -> Reading)
    requires Queue(queue, rows)
    ensures CountedSoFar(rows, queue, 0, 0, includeHeld, raw, world)
  {
  }

  lemma CountOneMore(rows: seq<Row>, queue: seq<nat>, k: nat, includeHeld: bool, raw: Option<Stamp>, world: nat -> Reading)
    requires 0 < k <= |queue| && Queue(queue, rows)
    ensures var p := Drained(rows, queue, k - 1, Mode(includeHeld, LoadPolicy(raw)), world);
            && (p.stop == Running && CountedSoFar(rows, queue, k - 1, k - 1, includeHeld, raw, world) ==>
                  CountedSoFar(rows, queue, k, k, includeHeld, raw, world))
            && forall n: nat :: n < k && p.stop != Running && CountedSoFar(rows, queue, k - 1, n, includeHeld, raw, world) ==>
                 CountedSoFar(rows, queue, k, n, includeHeld, raw, world)
  {
    NextTurn(rows, queue, k - 1, Mode(includeHeld, LoadPolicy(raw)), world);
    var p := Drained(rows, queue, k - 1, Mode(includeHeld, LoadPolicy(raw)), world);
    if p.stop == Running && CountedSoFar(rows, queue, k - 1, k - 1, includeHeld, raw, world) {
      NextCount(p, rows, queue, k, includeHeld, raw, world);
    }
  }

  // ---------------------------------------------------------------- the floor of a 429

  /** How long the built-in sender asks to wait, header by header. */
  predicate AsksFor(header: RetryHeader, wait: Instant) {
    match header
    case Number(Finite(s)) => wait == (if s < 0.0 then 60.0 else if s <= 900.0 then s else 900.0)
    case Number(PositiveInfinity) => wait == 900.0
    case Number(NotANumber) => false
    case _ => wait == 60.0
  }

  /** A row the built-in sender was answered 429 for gets the floor its header asks for, and no other change;
      the drain stops there. */
  lemma BuiltInFloorIsExact(rows: seq<Row>, queue: seq<nat>, mode: Mode, world: nat -> Reading, j: nat, url: string,
                            header: RetryHeader, wait: Instant)
    requires Queue(queue, rows) && j < Reached(rows, queue, |queue|, mode, world) && Posts(rows[queue[j]], mode, world(j))
    requires Postable(url) && world(j).reply == BuiltInReply(url, TooManyRequests(header)) && AsksFor(header, wait)
    requires world(j).stored
    ensures j == Reached(rows, queue, |queue|, mode, world) - 1
    ensures var after := Drained(rows, queue, |queue|, mode, world).rows;
            Postponed(rows[queue[j]], after[queue[j]], world(j).recordedAt + wait)
  {
    RetryAfterIsClampedUnlessNotANumber(header);
    RateLimitEndsTheDrain(rows, queue, mode, world, j);
  }
}
