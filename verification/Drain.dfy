/**
 What one sequential drain does to the outbox, as a function of the rows it selected and the replies it
 gets, and what that function guarantees.  Models DiscordNotifier.drain and delivery_preview of
 notifications/discord.py; the method that runs the loop is in Notifier.dfy.
 */
module Drain {
  import opened Common
  import opened DeliveryPolicy
  import opened Outbox
  import opened WebhookUrl

  /** What the world shows the drain at one queue position: the clock at the floor check, the sender's
      reply, the clock when the result is written, and whether that write goes through or raises on the way. */
  datatype Reading = Reading(checkedAt: Instant, reply: SenderReply, recordedAt: Instant, stored: bool)

  datatype Mode = Mode(includeHeld: bool, policy: Policy)

  datatype Stop = Running | RateLimited | Raised

  /** The drain's locals, the table it writes, and the row ids it has handed to the sender. */
  datatype Progress = Progress(
    rows: seq<Row>, sent: nat, failed: nat, held: nat, deferred: nat, reasons: map<Verdict, nat>,
    posts: seq<nat>, stop: Stop)

  function Start(rows: seq<Row>): Progress {
    Progress(rows, 0, 0, 0, 0, map[], [], Running)
  }

  function Bump(reasons: map<Verdict, nat>, v: Verdict): map<Verdict, nat> {
    reasons[v := (if v in reasons then reasons[v] else 0) + 1]
  }

  /** One turn of the loop: row `id`, whose copy was selected before the loop began. */
  function Visit(p: Progress, copy: Row, id: nat, mode: Mode, r: Reading): (q: Progress)
    requires id < |p.rows|
    ensures |q.rows| == |p.rows|
  {
    var verdict := VerdictFor(copy, mode.includeHeld, mode.policy);
    if !EligibleAt(copy, r.checkedAt) then p.(deferred := p.deferred + 1)
    else if verdict != Send then
      if !r.stored then p.(stop := Raised)
      else p.(rows := p.rows[id := HoldRow(p.rows[id], verdict, r.recordedAt)],
              held := p.held + 1, reasons := Bump(p.reasons, verdict))
    else
      var answer, told := Read(r.reply), p.(posts := p.posts + [id]);
      if !r.stored then told.(stop := Raised)
      else
        var q := told.(rows := p.rows[id := Recorded(p.rows[id], copy, answer, r.recordedAt)]);
        match answer
        case Accepted(_) => q.(sent := p.sent + 1)
        case Limited(_) => q.(deferred := p.deferred + 1, stop := RateLimited)
        case Broken => q.(stop := Raised)
        case Refused(_, _) => if copy.attempts + 1 >= MAX_ATTEMPTS then q.(failed := p.failed + 1) else q
  }

  ghost predicate Queue(queue: seq<nat>, rows: seq<Row>) {
    && (forall k :: 0 <= k < |queue| ==> queue[k] < |rows|)
    && (forall i, k :: 0 <= i < k < |queue| ==> queue[i] < queue[k])
  }

  /** The drain after its first `k` turns. */
  ghost function Drained(rows: seq<Row>, queue: seq<nat>, k: nat, mode: Mode, world: nat -> Reading): (p: Progress)
    requires k <= |queue| && Queue(queue, rows)
    ensures |p.rows| == |rows|
  {
    if k == 0 then Start(rows)
    else
      var p := Drained(rows, queue, k - 1, mode, world);
      if p.stop != Running then p
      else Visit(p, rows[queue[k - 1]], queue[k - 1], mode, world(k - 1))
  }

  // ---------------------------------------------------------------- each row on its own

  /** What a turn leaves in its row. */
  function RowAfter(row: Row, mode: Mode, r: Reading): Row {
    var verdict := VerdictFor(row, mode.includeHeld, mode.policy);
    if !EligibleAt(row, r.checkedAt) || Raises(row, mode, r) then row
    else if verdict != Send then HoldRow(row, verdict, r.recordedAt)
    else Recorded(row, row, Read(r.reply), r.recordedAt)
  }

  predicate Posts(row: Row, mode: Mode, r: Reading) {
    EligibleAt(row, r.checkedAt) && VerdictFor(row, mode.includeHeld, mode.policy) == Send
  }

  /** An exception leaves the turn: its write raises, or it posts and cannot read the reply. */
  predicate Raises(row: Row, mode: Mode, r: Reading) {
    EligibleAt(row, r.checkedAt) && (!r.stored || (Posts(row, mode, r) && Read(r.reply).Broken?))
  }

  predicate Halts(row: Row, mode: Mode, r: Reading) {
    Raises(row, mode, r) || (Posts(row, mode, r) && Read(r.reply).Limited?)
  }

  /** The turns a drain really takes: it stops after the first one that halts. */
  ghost function Reached(rows: seq<Row>, queue: seq<nat>, k: nat, mode: Mode, world: nat -> Reading): (n: nat)
    requires k <= |queue| && Queue(queue, rows)
    ensures n <= k
  {
    if k == 0 then 0
    else
      var n := Reached(rows, queue, k - 1, mode, world);
      if n < k - 1 || (n > 0 && Halts(rows[queue[n - 1]], mode, world(n - 1))) then n else k
  }

  ghost predicate PostedExactly(posts: seq<nat>, rows: seq<Row>, queue: seq<nat>, n: nat, mode: Mode, world: nat -> Reading)
    requires n <= |queue| && Queue(queue, rows)
  {
    && (forall i, j :: 0 <= i < j < |posts| ==> posts[i] < posts[j])
    && (forall id :: id in posts <==> exists j :: 0 <= j < n && queue[j] == id && Posts(rows[id], mode, world(j)))
  }

  lemma VisitIsLocal(p: Progress, copy: Row, id: nat, mode: Mode, r: Reading)
    requires id < |p.rows| && p.rows[id] == copy && p.stop == Running
    ensures var q := Visit(p, copy, id, mode, r);
            && q.rows == p.rows[id := RowAfter(copy, mode, r)]
            && q.posts == p.posts + (if Posts(copy, mode, r) then [id] else [])
            && (q.stop == Running <==> !Halts(copy, mode, r))
  {
    var q := Visit(p, copy, id, mode, r);
    assert q.rows == p.rows[id := RowAfter(copy, mode, r)];
  }

  /** The table after the first `k` turns. */
  ghost predicate RowByRow(p: Progress, rows: seq<Row>, queue: seq<nat>, n: nat, mode: Mode, world: nat -> Reading)
    requires n <= |queue| && Queue(queue, rows) && |p.rows| == |rows|
  {
    && (forall j :: 0 <= j < n ==> p.rows[queue[j]] == RowAfter(rows[queue[j]], mode, world(j)))
    && (forall id :: 0 <= id < |rows| && id !in queue[..n] ==> p.rows[id] == rows[id])
  }

  ghost predicate HaltsOnlyLast(p: Progress, rows: seq<Row>, queue: seq<nat>, k: nat, n: nat, mode: Mode, world: nat -> Reading)
    requires n <= k <= |queue| && Queue(queue, rows)
  {
    && (forall j :: 0 <= j < n - 1 ==> !Halts(rows[queue[j]], mode, world(j)))
    && (p.stop == Running <==> n == k && (n > 0 ==> !Halts(rows[queue[n - 1]], mode, world(n - 1))))
  }

  lemma RowByRowStep(p: Progress, q: Progress, rows: seq<Row>, queue: seq<nat>, k: nat, mode: Mode, world: nat -> Reading)
    requires 0 < k <= |queue| && Queue(queue, rows) && |p.rows| == |rows| == |q.rows|
    requires RowByRow(p, rows, queue, k - 1, mode, world)
    requires q.rows == p.rows[queue[k - 1] := RowAfter(rows[queue[k - 1]], mode, world(k - 1))]
    ensures RowByRow(q, rows, queue, k, mode, world)
  {
    assert queue[..k] == queue[..k - 1] + [queue[k - 1]];
  }

  lemma PostedStep(posts: seq<nat>, more: seq<nat>, rows: seq<Row>, queue: seq<nat>, k: nat, mode: Mode, world: nat -> Reading)
    requires 0 < k <= |queue| && Queue(queue, rows)
    requires PostedExactly(posts, rows, queue, k - 1, mode, world)
    requires more == posts + (if Posts(rows[queue[k - 1]], mode, world(k - 1)) then [queue[k - 1]] else [])
    ensures PostedExactly(more, rows, queue, k, mode, world)
  {
    forall i | 0 <= i < |posts| ensures posts[i] < queue[k - 1] {
      assert posts[i] in posts;
    }
    forall id ensures id in more <==> exists j :: 0 <= j < k && queue[j] == id && Posts(rows[id], mode, world(j)) {
      assert id in more <==> id in posts || (id == queue[k - 1] && Posts(rows[id], mode, world(k - 1)));
    }
  }

  lemma NextTurn(rows: seq<Row>, queue: seq<nat>, k: nat, mode: Mode, world: nat -> Reading)
    requires k < |queue| && Queue(queue, rows)
    ensures var p := Drained(rows, queue, k, mode, world);
            Drained(rows, queue, k + 1, mode, world) ==
            if p.stop != Running then p else Visit(p, rows[queue[k]], queue[k], mode, world(k))
  {
  }

  lemma VisitHalts(p: Progress, copy: Row, id: nat, mode: Mode, r: Reading)
    requires id < |p.rows| && p.stop == Running
    ensures Visit(p, copy, id, mode, r).stop == Running <==> !Halts(copy, mode, r)
  {
  }

  lemma {:induction false} OnlyTheLastTurnHalts(rows: seq<Row>, queue: seq<nat>, k: nat, mode: Mode, world: nat -> Reading)
    requires k <= |queue| && Queue(queue, rows)
    ensures HaltsOnlyLast(Drained(rows, queue, k, mode, world), rows, queue, k, Reached(rows, queue, k, mode, world), mode, world)
  {
    if k > 0 {
      OnlyTheLastTurnHalts(rows, queue, k - 1, mode, world);
      NextTurn(rows, queue, k - 1, mode, world);
      var p := Drained(rows, queue, k - 1, mode, world);
      if p.stop == Running { HaltsStep(p, rows, queue, k, mode, world); }
    }
  }

  lemma HaltsStep(p: Progress, rows: seq<Row>, queue: seq<nat>, k: nat, mode: Mode, world: nat -> Reading)
    requires 0 < k <= |queue| && Queue(queue, rows) && |p.rows| == |rows| && p.stop == Running
    requires HaltsOnlyLast(p, rows, queue, k - 1, k - 1, mode, world)
    ensures HaltsOnlyLast(Visit(p, rows[queue[k - 1]], queue[k - 1], mode, world(k - 1)), rows, queue, k, k, mode, world)
  {
    VisitHalts(p, rows[queue[k - 1]], queue[k - 1], mode, world(k - 1));
  }

  /** A running drain has reached every turn so far; a stopped one takes no more. */
  lemma TurnsReached(rows: seq<Row>, queue: seq<nat>, k: nat, mode: Mode, world: nat -> Reading)
    requires 0 < k <= |queue| && Queue(queue, rows)
    ensures Reached(rows, queue, k, mode, world) ==
            if Drained(rows, queue, k - 1, mode, world).stop == Running then k
            else Reached(rows, queue, k - 1, mode, world)
    ensures Drained(rows, queue, k - 1, mode, world).stop == Running ==>
              Reached(rows, queue, k - 1, mode, world) == k - 1
  {
    OnlyTheLastTurnHalts(rows, queue, k - 1, mode, world);
  }

  lemma {:induction false} RowsFollowTheirTurns(rows: seq<Row>, queue: seq<nat>, k: nat, mode: Mode, world: nat -> Reading)
    requires k <= |queue| && Queue(queue, rows)
    ensures RowByRow(Drained(rows, queue, k, mode, world), rows, queue, Reached(rows, queue, k, mode, world), mode, world)
  {
    if k > 0 {
      RowsFollowTheirTurns(rows, queue, k - 1, mode, world);
      NextTurn(rows, queue, k - 1, mode, world);
      TurnsReached(rows, queue, k, mode, world);
      var p, id := Drained(rows, queue, k - 1, mode, world), queue[k - 1];
      if p.stop == Running {
        assert id !in queue[..k - 1];
        VisitIsLocal(p, rows[id], id, mode, world(k - 1));
        RowByRowStep(p, Visit(p, rows[id], id, mode, world(k - 1)), rows, queue, k, mode, world);
      }
    }
  }

  lemma VisitPosts(p: Progress, copy: Row, id: nat, mode: Mode, r: Reading)
    requires id < |p.rows|
    ensures Visit(p, copy, id, mode, r).posts == p.posts + (if Posts(copy, mode, r) then [id] else [])
  {
  }

  /** The rows among the first `n` of the queue that their turns post. */
  ghost function PostsIn(rows: seq<Row>, queue: seq<nat>, n: nat, mode: Mode, world: nat -> Reading): seq<nat>
    requires n <= |queue| && Queue(queue, rows)
  {
    if n == 0 then []
    else
      PostsIn(rows, queue, n - 1, mode, world) +
      if Posts(rows[queue[n - 1]], mode, world(n - 1)) then [queue[n - 1]] else []
  }

  lemma {:induction false} PostsInAreExact(rows: seq<Row>, queue: seq<nat>, n: nat, mode: Mode, world: nat -> Reading)
    requires n <= |queue| && Queue(queue, rows)
    ensures PostedExactly(PostsIn(rows, queue, n, mode, world), rows, queue, n, mode, world)
  {
    if n > 0 {
      PostsInAreExact(rows, queue, n - 1, mode, world);
      PostedStep(PostsIn(rows, queue, n - 1, mode, world), PostsIn(rows, queue, n, mode, world), rows, queue, n, mode, world);
    }
  }

  lemma {:induction false} PostsFollowTheirTurns(rows: seq<Row>, queue: seq<nat>, k: nat, mode: Mode, world: nat -> Reading)
    requires k <= |queue| && Queue(queue, rows)
    ensures Drained(rows, queue, k, mode, world).posts == PostsIn(rows, queue, Reached(rows, queue, k, mode, world), mode, world)
  {
    if k > 0 {
      PostsFollowTheirTurns(rows, queue, k - 1, mode, world);
      NextTurn(rows, queue, k - 1, mode, world);
      TurnsReached(rows, queue, k, mode, world);
      var p, id := Drained(rows, queue, k - 1, mode, world), queue[k - 1];
      if p.stop == Running { VisitPosts(p, rows[id], id, mode, world(k - 1)); }
    }
  }

  /** The drain in closed form.  Every row the drain reaches ends as its own turn leaves it, every other
      row is untouched, each row reached is posted at most once, and no turn halts but the last. */
  lemma DrainActsRowByRow(rows: seq<Row>, queue: seq<nat>, k: nat, mode: Mode, world: nat -> Reading)
    requires k <= |queue| && Queue(queue, rows)
    ensures var p := Drained(rows, queue, k, mode, world);
            var n := Reached(rows, queue, k, mode, world);
            && RowByRow(p, rows, queue, n, mode, world)
            && HaltsOnlyLast(p, rows, queue, k, n, mode, world)
            && PostedExactly(p.posts, rows, queue, n, mode, world)
  {
    RowsFollowTheirTurns(rows, queue, k, mode, world);
    OnlyTheLastTurnHalts(rows, queue, k, mode, world);
    PostsFollowTheirTurns(rows, queue, k, mode, world);
    PostsInAreExact(rows, queue, Reached(rows, queue, k, mode, world), mode, world);
  }

  // ---------------------------------------------------------------- rate limits

  /** At most one post of a drain is answered 429: it is the last turn taken, it costs its row nothing but
      a retry floor of the write time plus the wait (not even that if the write raises), and every later row
      of the queue is untouched. */
  lemma RateLimitEndsTheDrain(rows: seq<Row>, queue: seq<nat>, mode: Mode, world: nat -> Reading, j: nat)
    requires Queue(queue, rows) && j < Reached(rows, queue, |queue|, mode, world)
    requires Posts(rows[queue[j]], mode, world(j)) && Read(world(j).reply).Limited?
    ensures j == Reached(rows, queue, |queue|, mode, world) - 1
    ensures var after := Drained(rows, queue, |queue|, mode, world).rows;
            && after[queue[j]] == (if world(j).stored
                                   then rows[queue[j]].(notBefore := At(world(j).recordedAt + Read(world(j).reply).wait))
                                   else rows[queue[j]])
            && forall i :: j < i < |queue| ==> after[queue[i]] == rows[queue[i]]
  {
    RowsFollowTheirTurns(rows, queue, |queue|, mode, world);
    OnlyTheLastTurnHalts(rows, queue, |queue|, mode, world);
    assert Halts(rows[queue[j]], mode, world(j));
    var n := Reached(rows, queue, |queue|, mode, world);
    forall i | j < i < |queue| ensures queue[i] !in queue[..n] {
    }
  }

  // ---------------------------------------------------------------- when a drain raises

  /** Turn `j` is taken, and an exception leaves it. */
  ghost predicate RaisesAt(rows: seq<Row>, queue: seq<nat>, k: nat, mode: Mode, world: nat -> Reading, j: nat)
    requires k <= |queue| && Queue(queue, rows)
  {
    j < Reached(rows, queue, k, mode, world) && Raises(rows[queue[j]], mode, world(j))
  }

  lemma VisitRaises(p: Progress, copy: Row, id: nat, mode: Mode, r: Reading)
    requires id < |p.rows| && p.stop == Running
    ensures Visit(p, copy, id, mode, r).stop == Raised <==> Raises(copy, mode, r)
  {
  }

  /** A drain raises exactly when a turn it takes does: its store write raises, or it posts a row and meets
      a reply that cannot be read. */
  lemma {:induction false} RaisesExactly(rows: seq<Row>, queue: seq<nat>, k: nat, mode: Mode, world: nat -> Reading)
    requires k <= |queue| && Queue(queue, rows)
    ensures Drained(rows, queue, k, mode, world).stop == Raised <==>
              exists j: nat :: RaisesAt(rows, queue, k, mode, world, j)
  {
    if k > 0 {
      RaisesExactly(rows, queue, k - 1, mode, world);
      TurnsReached(rows, queue, k, mode, world);
      NextTurn(rows, queue, k - 1, mode, world);
      var p := Drained(rows, queue, k - 1, mode, world);
      if p.stop == Running {
        VisitRaises(p, rows[queue[k - 1]], queue[k - 1], mode, world(k - 1));
        if Raises(rows[queue[k - 1]], mode, world(k - 1)) {
          assert RaisesAt(rows, queue, k, mode, world, k - 1);
        }
        forall j: nat | RaisesAt(rows, queue, k, mode, world, j) ensures j == k - 1 {
          if j < k - 1 { assert RaisesAt(rows, queue, k - 1, mode, world, j); }
        }
      } else {
        if p.stop == Raised {
          var j: nat :| RaisesAt(rows, queue, k - 1, mode, world, j);
          assert RaisesAt(rows, queue, k, mode, world, j);
        }
        forall j: nat | RaisesAt(rows, queue, k, mode, world, j) ensures p.stop == Raised {
          assert RaisesAt(rows, queue, k - 1, mode, world, j);
        }
      }
    }
  }

  /** With the built-in sender that is: a store write of the drain raises, or it posts a row and either its
      URL names no scheme or the answer is 429 with a Retry-After header that spells not-a-number. */
  lemma BuiltInSenderRaisesExactly(rows: seq<Row>, queue: seq<nat>, mode: Mode, world: nat -> Reading,
                                   url: string, responses: nat -> Response)
    requires Queue(queue, rows) && forall j :: world(j).reply == BuiltInReply(url, responses(j))
    ensures Drained(rows, queue, |queue|, mode, world).stop == Raised <==>
              exists j: nat :: j < Reached(rows, queue, |queue|, mode, world) && EligibleAt(rows[queue[j]], world(j).checkedAt)
                               && (!world(j).stored
                                   || (Posts(rows[queue[j]], mode, world(j))
                                       && (!Postable(url) || responses(j) == TooManyRequests(Number(NotANumber)))))
  {
    RaisesExactly(rows, queue, |queue|, mode, world);
    forall j: nat | j < Reached(rows, queue, |queue|, mode, world)
      ensures RaisesAt(rows, queue, |queue|, mode, world, j) <==>
                EligibleAt(rows[queue[j]], world(j).checkedAt)
                && (!world(j).stored
                    || (Posts(rows[queue[j]], mode, world(j))
                        && (!Postable(url) || responses(j) == TooManyRequests(Number(NotANumber)))))
    {
      BuiltInSenderIsReadable(url, responses(j));
    }
  }

  lemma {:induction false} StopsWhereItHalts(rows: seq<Row>, queue: seq<nat>, k: nat, mode: Mode, world: nat -> Reading)
    requires k <= |queue| && Queue(queue, rows)
    ensures var n := Reached(rows, queue, k, mode, world);
            n < k ==> n > 0 && Halts(rows[queue[n - 1]], mode, world(n - 1))
  {
    if k > 0 { StopsWhereItHalts(rows, queue, k - 1, mode, world); }
  }

  /** The webhook URL names no scheme, the sender is the built-in one, and the store takes every write. */
  ghost predicate BareUrl(world: nat -> Reading, url: string, responses: nat -> Response) {
    !Postable(url) && forall j :: world(j).reply == BuiltInReply(url, responses(j)) && world(j).stored
  }

  lemma BareUrlRaises(row: Row, mode: Mode, world: nat -> Reading, url: string, responses: nat -> Response, j: nat)
    requires BareUrl(world, url, responses)
    ensures Halts(row, mode, world(j)) <==> Posts(row, mode, world(j))
    ensures Raises(row, mode, world(j)) <==> Posts(row, mode, world(j))
    ensures Posts(row, mode, world(j)) ==> RowAfter(row, mode, world(j)) == row
  {
    BuiltInSenderIsReadable(url, responses(j));
  }

  lemma BareUrlStops(rows: seq<Row>, queue: seq<nat>, mode: Mode, world: nat -> Reading, url: string, responses: nat -> Response)
    requires Queue(queue, rows) && BareUrl(world, url, responses)
    ensures Drained(rows, queue, |queue|, mode, world).stop == Raised <==>
              exists i :: 0 <= i < |queue| && Posts(rows[queue[i]], mode, world(i))
  {
    RaisesExactly(rows, queue, |queue|, mode, world);
    if j: nat :| RaisesAt(rows, queue, |queue|, mode, world, j) {
      BareUrlRaises(rows[queue[j]], mode, world, url, responses, j);
    }
    if i :| 0 <= i < |queue| && Posts(rows[queue[i]], mode, world(i)) {
      BareUrlStopsAt(rows, queue, mode, world, url, responses, i);
    }
  }

  lemma BareUrlStopsAt(rows: seq<Row>, queue: seq<nat>, mode: Mode, world: nat -> Reading, url: string,
                       responses: nat -> Response, i: nat)
    requires Queue(queue, rows) && BareUrl(world, url, responses)
    requires i < |queue| && Posts(rows[queue[i]], mode, world(i))
    ensures exists j: nat :: RaisesAt(rows, queue, |queue|, mode, world, j)
  {
    var n := Reached(rows, queue, |queue|, mode, world);
    if n == |queue| {
      BareUrlRaises(rows[queue[i]], mode, world, url, responses, i);
      assert RaisesAt(rows, queue, |queue|, mode, world, i);
    } else {
      StopsWhereItHalts(rows, queue, |queue|, mode, world);
      BareUrlRaises(rows[queue[n - 1]], mode, world, url, responses, n - 1);
      assert RaisesAt(rows, queue, |queue|, mode, world, n - 1);
    }
  }

  lemma BareUrlPosts(p: Progress, rows: seq<Row>, queue: seq<nat>, k: nat, n: nat, mode: Mode, world: nat -> Reading,
                     url: string, responses: nat -> Response, id: nat)
    requires n <= k <= |queue| && Queue(queue, rows) && |p.rows| == |rows| && BareUrl(world, url, responses)
    requires RowByRow(p, rows, queue, n, mode, world) && HaltsOnlyLast(p, rows, queue, k, n, mode, world)
    requires PostedExactly(p.posts, rows, queue, n, mode, world) && id in p.posts
    ensures n > 0 && id == queue[n - 1] && p.rows[id] == rows[id]
  {
    var j :| 0 <= j < n && queue[j] == id && Posts(rows[id], mode, world(j));
    BareUrlRaises(rows[id], mode, world, url, responses, j);
  }

  /** A URL without a scheme gets nothing delivered and nothing recorded: with a store that takes every write,
      the drain raises as soon as there is a row to post, whatever else is in the queue, and the one row it
      hands to the sender stays as it was. */
  lemma BareUrlDeliversNothing(rows: seq<Row>, queue: seq<nat>, mode: Mode, world: nat -> Reading,
                               url: string, responses: nat -> Response)
    requires Queue(queue, rows) && BareUrl(world, url, responses)
    ensures var p := Drained(rows, queue, |queue|, mode, world);
            && (p.stop == Raised <==> exists i :: 0 <= i < |queue| && Posts(rows[queue[i]], mode, world(i)))
            && |p.posts| <= 1 && forall id :: id in p.posts ==> id < |rows| && p.rows[id] == rows[id]
  {
    var p, n := Drained(rows, queue, |queue|, mode, world), Reached(rows, queue, |queue|, mode, world);
    BareUrlStops(rows, queue, mode, world, url, responses);
    DrainActsRowByRow(rows, queue, |queue|, mode, world);
    forall id | id in p.posts ensures id < |rows| && p.rows[id] == rows[id] && n > 0 && id == queue[n - 1] {
      BareUrlPosts(p, rows, queue, |queue|, n, mode, world, url, responses, id);
    }
    if p.posts != [] { assert p.posts[0] in p.posts && p.posts[|p.posts| - 1] in p.posts; }
  }

  // ---------------------------------------------------------------- the activation policy

  /** A drain without `include_held` posts only rows the stored cutoff clears, none at all when the stored
      policy cannot be read, and leaves every held row as it is. */
  lemma PolicyGuardsTheDrain(rows: seq<Row>, raw: Option<Stamp>, world: nat -> Reading)
    ensures var mode := Mode(false, LoadPolicy(raw));
            var p := Drained(rows, SelectedIds(rows, false), |SelectedIds(rows, false)|, mode, world);
            && (forall id :: id in p.posts ==> id < |rows| && Cleared(rows[id].eventTime, raw))
            && (raw.Some? && !raw.value.At? ==> p.posts == [])
            && (forall id :: 0 <= id < |rows| && rows[id].status == Held ==> p.rows[id] == rows[id])
  {
    var queue, mode := SelectedIds(rows, false), Mode(false, LoadPolicy(raw));
    DrainActsRowByRow(rows, queue, |queue|, mode, world);
    var p := Drained(rows, queue, |queue|, mode, world);
    forall id | id in p.posts ensures id < |rows| && Cleared(rows[id].eventTime, raw) {
      FailsClosed(rows[id].eventTime, raw);
    }
    if p.posts != [] {
      assert p.posts[0] in p.posts;
    }
  }

  // ---------------------------------------------------------------- preview

  /** The preview's tally over the first `k` pending rows. */
  function Tally(rows: seq<Row>, queue: seq<nat>, k: nat, policy: Policy): map<Verdict, nat>
    requires k <= |queue| && forall i :: 0 <= i < |queue| ==> queue[i] < |rows|
  {
    if k == 0 then map[]
    else Bump(Tally(rows, queue, k - 1, policy), Decide(rows[queue[k - 1]].eventTime, policy))
  }

  function Get(tally: map<Verdict, nat>, v: Verdict): nat {
    if v in tally then tally[v] else 0
  }

  function WouldHold(tally: map<Verdict, nat>): nat {
    Get(tally, HeldBeforeCutoff) + Get(tally, HeldUnknownEventTime) + Get(tally, HeldPolicyUnreadable)
  }

  lemma BumpAddsOne(tally: map<Verdict, nat>, v: Verdict)
    ensures Get(Bump(tally, v), Send) + WouldHold(Bump(tally, v)) == Get(tally, Send) + WouldHold(tally) + 1
  {
  }

  lemma {:induction false} TallyIsTotal(rows: seq<Row>, queue: seq<nat>, k: nat, policy: Policy)
    requires k <= |queue| && Queue(queue, rows)
    ensures Get(Tally(rows, queue, k, policy), Send) + WouldHold(Tally(rows, queue, k, policy)) == k
  {
    if k > 0 {
      TallyIsTotal(rows, queue, k - 1, policy);
      BumpAddsOne(Tally(rows, queue, k - 1, policy), Decide(rows[queue[k - 1]].eventTime, policy));
    }
  }

  lemma VisitCounts(p: Progress, copy: Row, id: nat, mode: Mode, r: Reading)
    requires id < |p.rows| && p.stop == Running
    ensures var q := Visit(p, copy, id, mode, r);
            && q.held + |q.posts| + q.deferred ==
               p.held + |p.posts| + p.deferred +
               (if q.stop == RateLimited then 2 else if Raises(copy, mode, r) && !Posts(copy, mode, r) then 0 else 1)
  {
  }

  /** The last turn taken was to hold its row, and the write raised. */
  ghost predicate HoldFailed(rows: seq<Row>, queue: seq<nat>, n: nat, mode: Mode, world: nat -> Reading)
    requires n <= |queue| && Queue(queue, rows)
  {
    n > 0 && Raises(rows[queue[n - 1]], mode, world(n - 1)) && !Posts(rows[queue[n - 1]], mode, world(n - 1))
  }

  /** Every turn taken is accounted for once, a rate-limited one twice, as a post and as a deferral, and a
      hold whose write raised not at all. */
  lemma {:induction false} TurnsAreAccountedFor(rows: seq<Row>, queue: seq<nat>, k: nat, mode: Mode, world: nat -> Reading)
    requires k <= |queue| && Queue(queue, rows)
    ensures Accounted(Drained(rows, queue, k, mode, world), rows, queue, Reached(rows, queue, k, mode, world), mode, world)
  {
    if k > 0 {
      TurnsAreAccountedFor(rows, queue, k - 1, mode, world);
      NextTurn(rows, queue, k - 1, mode, world);
      TurnsReached(rows, queue, k, mode, world);
      var p := Drained(rows, queue, k - 1, mode, world);
      if p.stop == Running {
        OnlyTheLastTurnHalts(rows, queue, k - 1, mode, world);
        TurnIsAccountedFor(p, rows, queue, k, mode, world);
      }
    }
  }

  ghost predicate Accounted(p: Progress, rows: seq<Row>, queue: seq<nat>, n: nat, mode: Mode, world: nat -> Reading)
    requires n <= |queue| && Queue(queue, rows)
  {
    p.held + |p.posts| + p.deferred ==
    n + (if p.stop == RateLimited then 1 else 0) - (if HoldFailed(rows, queue, n, mode, world) then 1 else 0)
  }

  lemma TurnIsAccountedFor(p: Progress, rows: seq<Row>, queue: seq<nat>, k: nat, mode: Mode, world: nat -> Reading)
    requires 0 < k <= |queue| && Queue(queue, rows) && |p.rows| == |rows| && p.stop == Running
    requires Accounted(p, rows, queue, k - 1, mode, world)
    requires k > 1 ==> !Halts(rows[queue[k - 2]], mode, world(k - 2))
    ensures Accounted(Visit(p, rows[queue[k - 1]], queue[k - 1], mode, world(k - 1)), rows, queue, k, mode, world)
  {
    VisitCounts(p, rows[queue[k - 1]], queue[k - 1], mode, world(k - 1));
  }

  /** No 429, no reply that raises and no write that does. */
  predicate Quiet(r: Reading) {
    !Read(r.reply).Limited? && !Read(r.reply).Broken? && r.stored
  }

  /** The drain never contradicts the preview of the same rows and policy.  With no 429 and nothing that
      raises, held + posted + deferred is the previewed total. */
  lemma DrainCoversThePreview(rows: seq<Row>, policy: Policy, world: nat -> Reading)
    requires forall k :: Quiet(world(k))
    ensures var queue := SelectedIds(rows, false);
            var p := Drained(rows, queue, |queue|, Mode(false, policy), world);
            var tally := Tally(rows, queue, |queue|, policy);
            p.held + |p.posts| + p.deferred == Get(tally, Send) + WouldHold(tally)
  {
    var queue := SelectedIds(rows, false);
    NothingHalts(rows, queue, |queue|, Mode(false, policy), world);
    TurnsAreAccountedFor(rows, queue, |queue|, Mode(false, policy), world);
    TallyIsTotal(rows, queue, |queue|, policy);
  }

  lemma QuietTurn(p: Progress, copy: Row, id: nat, mode: Mode, r: Reading)
    requires id < |p.rows| && p.stop == Running && Quiet(r)
    ensures Visit(p, copy, id, mode, r).stop == Running && !Halts(copy, mode, r)
  {
  }

  lemma {:induction false} NothingHalts(rows: seq<Row>, queue: seq<nat>, k: nat, mode: Mode, world: nat -> Reading)
    requires k <= |queue| && Queue(queue, rows)
    requires forall i :: Quiet(world(i))
    ensures Reached(rows, queue, k, mode, world) == k && Drained(rows, queue, k, mode, world).stop == Running
  {
    if k > 0 {
      NothingHalts(rows, queue, k - 1, mode, world);
      QuietTurn(Drained(rows, queue, k - 1, mode, world), rows[queue[k - 1]], queue[k - 1], mode, world(k - 1));
      if k > 1 {
        QuietTurn(Drained(rows, queue, k - 1, mode, world), rows[queue[k - 2]], queue[k - 2], mode, world(k - 2));
      }
    }
  }

  lemma VisitFollowsThePreview(p: Progress, tally: map<Verdict, nat>, copy: Row, id: nat, policy: Policy, r: Reading)
    requires id < |p.rows| && EligibleAt(copy, r.checkedAt)
    requires Quiet(r)
    requires p.deferred == 0 && p.held == WouldHold(tally) && |p.posts| == Get(tally, Send)
    requires p.reasons == tally - {Send}
    ensures var q := Visit(p, copy, id, Mode(false, policy), r);
            var next := Bump(tally, Decide(copy.eventTime, policy));
            && q.deferred == 0 && q.held == WouldHold(next) && |q.posts| == Get(next, Send)
            && q.reasons == next - {Send}
  {
    var q := Visit(p, copy, id, Mode(false, policy), r);
    var v := Decide(copy.eventTime, policy);
    var next := Bump(tally, v);
    if v == Send {
      assert q.reasons == p.reasons;
      assert next - {Send} == tally - {Send};
    } else {
      assert q.reasons == Bump(p.reasons, v);
      assert Get(p.reasons, v) == Get(tally, v);
    }
  }

  lemma {:induction false} ReasonsFollowThePreview(rows: seq<Row>, queue: seq<nat>, k: nat, policy: Policy, world: nat -> Reading)
    requires k <= |queue| && Queue(queue, rows)
    requires forall i :: Quiet(world(i))
    requires forall i :: 0 <= i < |queue| ==> EligibleAt(rows[queue[i]], world(i).checkedAt)
    ensures var p := Drained(rows, queue, k, Mode(false, policy), world);
            var tally := Tally(rows, queue, k, policy);
            && p.deferred == 0 && p.held == WouldHold(tally) && |p.posts| == Get(tally, Send)
            && p.reasons == tally - {Send}
  {
    if k > 0 {
      ReasonsFollowThePreview(rows, queue, k - 1, policy, world);
      NothingHalts(rows, queue, k - 1, Mode(false, policy), world);
      VisitFollowsThePreview(Drained(rows, queue, k - 1, Mode(false, policy), world), Tally(rows, queue, k - 1, policy),
                             rows[queue[k - 1]], queue[k - 1], policy, world(k - 1));
    }
  }

  /** With no floor in force either, the drain does exactly what the preview announced: it holds the rows
      the preview would hold, counted under the same reasons and each marked with its own verdict, and
      posts the rows the preview would send. */
  lemma DrainRefinesThePreview(rows: seq<Row>, policy: Policy, world: nat -> Reading)
    requires forall k :: Quiet(world(k))
    requires forall i :: 0 <= i < |SelectedIds(rows, false)| ==>
                           EligibleAt(rows[SelectedIds(rows, false)[i]], world(i).checkedAt)
    ensures var queue := SelectedIds(rows, false);
            var p := Drained(rows, queue, |queue|, Mode(false, policy), world);
            var tally := Tally(rows, queue, |queue|, policy);
            && p.held == WouldHold(tally) && |p.posts| == Get(tally, Send) && p.reasons == tally - {Send}
            && forall i :: 0 <= i < |queue| ==> TurnIsPreviewed(p, rows[queue[i]], queue[i], policy, world(i))
  {
    var queue, mode := SelectedIds(rows, false), Mode(false, policy);
    ReasonsFollowThePreview(rows, queue, |queue|, policy, world);
    NothingHalts(rows, queue, |queue|, mode, world);
    DrainActsRowByRow(rows, queue, |queue|, mode, world);
    TurnsArePreviewed(Drained(rows, queue, |queue|, mode, world), rows, queue, policy, world);
  }

  /** A row is posted exactly if the preview would send it; otherwise it is held with the previewed verdict. */
  ghost predicate TurnIsPreviewed(p: Progress, row: Row, id: nat, policy: Policy, r: Reading) {
    var verdict := Decide(row.eventTime, policy);
    && (id in p.posts <==> verdict == Send)
    && (verdict != Send ==> id < |p.rows| && p.rows[id] == HoldRow(row, verdict, r.recordedAt))
  }

  lemma TurnsArePreviewed(p: Progress, rows: seq<Row>, queue: seq<nat>, policy: Policy, world: nat -> Reading)
    requires Queue(queue, rows) && |p.rows| == |rows|
    requires RowByRow(p, rows, queue, |queue|, Mode(false, policy), world)
    requires PostedExactly(p.posts, rows, queue, |queue|, Mode(false, policy), world)
    requires forall k :: Quiet(world(k))
    requires forall i :: 0 <= i < |queue| ==> EligibleAt(rows[queue[i]], world(i).checkedAt)
    ensures forall i :: 0 <= i < |queue| ==> TurnIsPreviewed(p, rows[queue[i]], queue[i], policy, world(i))
  {
    forall i | 0 <= i < |queue| ensures TurnIsPreviewed(p, rows[queue[i]], queue[i], policy, world(i)) {
      assert Posts(rows[queue[i]], Mode(false, policy), world(i)) <==> Decide(rows[queue[i]].eventTime, policy) == Send;
    }
  }

  // ---------------------------------------------------------------- five drains settle a row

  datatype Attempt = Attempt(mode: Mode, world: nat -> Reading)

  ghost function OneDrain(rows: seq<Row>, a: Attempt): (after: seq<Row>)
    ensures |after| == |rows|
  {
    var queue := SelectedIds(rows, a.mode.includeHeld);
    Drained(rows, queue, |queue|, a.mode, a.world).rows
  }

  ghost function AfterDrains(rows: seq<Row>, attempts: seq<Attempt>): (after: seq<Row>)
    ensures |after| == |rows|
    decreases |attempts|
  {
    if attempts == [] then rows else AfterDrains(OneDrain(rows, attempts[0]), attempts[1..])
  }

  /** The drain gets to row `id` and does not defer it: no floor is in force, the reply is no 429, nothing
      raises in this turn, and nothing stopped the drain earlier. */
  ghost predicate Serves(rows: seq<Row>, a: Attempt, id: nat) {
    var queue := SelectedIds(rows, a.mode.includeHeld);
    exists j :: 0 <= j < Reached(rows, queue, |queue|, a.mode, a.world) && queue[j] == id
                && EligibleAt(rows[id], a.world(j).checkedAt) && !Halts(rows[id], a.mode, a.world(j))
  }

  /** A served pending row is settled, or it has used up one of its attempts. */
  lemma ServedRowSettlesOrCounts(rows: seq<Row>, a: Attempt, id: nat)
    requires id < |rows| && rows[id].status == Pending && rows[id].attempts < MAX_ATTEMPTS
    requires Serves(rows, a, id)
    ensures var after := OneDrain(rows, a)[id];
            after.status == Pending ==> after.attempts == rows[id].attempts + 1 < MAX_ATTEMPTS
  {
    var queue := SelectedIds(rows, a.mode.includeHeld);
    RowsFollowTheirTurns(rows, queue, |queue|, a.mode, a.world);
    var j :| 0 <= j < Reached(rows, queue, |queue|, a.mode, a.world) && queue[j] == id
             && EligibleAt(rows[id], a.world(j).checkedAt) && !Halts(rows[id], a.mode, a.world(j));
    SettlesOrCounts(rows[id], a.mode, a.world(j));
  }

  lemma SettlesOrCounts(row: Row, mode: Mode, r: Reading)
    requires row.attempts < MAX_ATTEMPTS && EligibleAt(row, r.checkedAt) && !Halts(row, mode, r)
    ensures RowAfter(row, mode, r).status == Pending ==>
              RowAfter(row, mode, r).attempts == row.attempts + 1 < MAX_ATTEMPTS
  {
  }

  /** A pending row that every drain serves while it is pending is settled (sent, failed or held) after at
      most `MAX_ATTEMPTS - attempts` drains, so after at most five. */
  lemma {:induction false} FiveDrainsSettle(rows: seq<Row>, attempts: seq<Attempt>, id: nat) returns (k: nat)
    requires id < |rows| && rows[id].status == Pending && rows[id].attempts < MAX_ATTEMPTS
    requires |attempts| >= MAX_ATTEMPTS - rows[id].attempts
    requires forall i :: 0 <= i < |attempts| && AfterDrains(rows, attempts[..i])[id].status == Pending ==>
                           Serves(AfterDrains(rows, attempts[..i]), attempts[i], id)
    ensures 0 < k <= MAX_ATTEMPTS - rows[id].attempts
    ensures AfterDrains(rows, attempts[..k])[id].status != Pending
    decreases |attempts|
  {
    assert attempts[..0] == [];
    ServedRowSettlesOrCounts(rows, attempts[0], id);
    var next := OneDrain(rows, attempts[0]);
    if next[id].status != Pending {
      k := 1;
      assert attempts[..1][0] == attempts[0] && attempts[..1][1..] == [];
    } else {
      var rest := attempts[1..];
      forall i | 0 <= i < |rest|
        ensures AfterDrains(next, rest[..i]) == AfterDrains(rows, attempts[..i + 1])
      {
        assert attempts[..i + 1][1..] == rest[..i];
      }
      var m := FiveDrainsSettle(next, rest, id);
      k := m + 1;
      assert attempts[..k][1..] == rest[..m];
    }
  }
}
