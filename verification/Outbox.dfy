/**
 The notification outbox: its rows, what the store's notification methods do to a row, and how a
 sender's reply is read.  Models the `notifications` table of core/store.py and the reply handling of
 notifications/discord.py.  A row's id is its position: rows are never deleted.
 */
module Outbox {
  import opened Common
  import opened DeliveryPolicy
  import opened WebhookUrl

  const MAX_ATTEMPTS := 5
  const MAX_RETRY_AFTER_SECONDS: Instant := 900.0
  const DEFAULT_RETRY_AFTER_SECONDS: Instant := 60.0
  const RATE_LIMITED := "http_429_rate_limited"

  // ---------------------------------------------------------------- sender replies

  /** A float number of seconds as Python reads it. */
  datatype Seconds = Finite(value: real) | PositiveInfinity | NegativeInfinity | NotANumber

  /** A Retry-After header: absent, text that is no number, or a number. */
  datatype RetryHeader = Absent | Junk | Number(seconds: Seconds)

  function ParseRetryAfter(header: RetryHeader): Option<Seconds> {
    match header
    case Absent => None
    case Junk => None
    case Number(NegativeInfinity) => None
    case Number(PositiveInfinity) => Some(Finite(MAX_RETRY_AFTER_SECONDS))
    case Number(NotANumber) => Some(NotANumber)
    case Number(Finite(s)) =>
      if s < 0.0 then None
      else if s < MAX_RETRY_AFTER_SECONDS then Some(Finite(s)) else Some(Finite(MAX_RETRY_AFTER_SECONDS))
  }

  /** What the sender hands back: a 4-, 3- or 2-tuple, or something else; or it raises. */
  datatype SenderReply =
    | Four(ok4: bool, err4: Option<string>, status4: Option<int>, retry4: Option<Seconds>)
    | Three(ok3: bool, err3: Option<string>, retry3: Option<Seconds>)
    | Two(ok2: bool, err2: Option<string>)
    | Misshapen
    | Thrown

  datatype Outcome = Outcome(ok: bool, err: Option<string>, status: Option<int>, retryAfter: Option<Seconds>)

  /** None stands for the exception: the sender's own, or the TypeError of a reply that is not a 2/3/4-tuple. */
  function NormalizeOutcome(reply: SenderReply): Option<Outcome> {
    match reply
    case Four(ok, err, status, retry) => Some(Outcome(ok, err, status, retry))
    case Three(ok, err, retry) => Some(Outcome(ok, err, None, retry))
    case Two(ok, err) => Some(Outcome(ok, err, None, None))
    case Misshapen => None
    case Thrown => None
  }

  /** The one reply of the built-in sender to a 429 with the given header. */
  function RateLimitedReply(header: RetryHeader): SenderReply {
    var parsed := ParseRetryAfter(header);
    Four(false, Some(RATE_LIMITED), Some(429),
         if parsed == None then Some(Finite(DEFAULT_RETRY_AFTER_SECONDS)) else parsed)
  }

  /** What the built-in sender can meet: a success, a 429 with its header, or another HTTP or transport error,
      of which it keeps a category. */
  datatype Response = Success(http: int) | TooManyRequests(header: RetryHeader) | Failure(category: string, code: Option<int>)

  /** The request is built before the built-in sender catches anything. */
  function BuiltInReply(url: string, response: Response): SenderReply {
    if !Postable(url) then Thrown
    else
      match response
      case Success(http) => Four(true, None, Some(http), None)
      case TooManyRequests(header) => RateLimitedReply(header)
      case Failure(category, code) => Four(false, Some(category), code, None)
  }

  function WaitOf(o: Outcome): Seconds {
    if o.retryAfter.Some? then o.retryAfter.value else Finite(DEFAULT_RETRY_AFTER_SECONDS)
  }

  /** How the drain reads a reply.  `Broken` is one that makes it raise: an exception of the sender, a wrong
      shape, or a 429 whose wait is no finite number. */
  datatype Answer = Accepted(status: Option<int>)
                  | Limited(wait: Instant)
                  | Refused(error: Option<string>, http: Option<int>)
                  | Broken

  function Read(reply: SenderReply): Answer {
    match NormalizeOutcome(reply)
    case None => Broken
    case Some(o) =>
      if o.ok then Accepted(o.status)
      else if o.err == Some(RATE_LIMITED) then
        if WaitOf(o).Finite? then Limited(WaitOf(o).value) else Broken
      else Refused(o.err, o.status)
  }

  /** What a 429 of the built-in sender leads to, header by header: a number of seconds is waited out as it is
      up to a quarter of an hour, anything longer becomes a quarter of an hour, and a header that is missing,
      no number or negative becomes a minute.  The clamp misses one header: the drain raises on one that spells
      not-a-number instead of deferring. */
  lemma RetryAfterIsClampedUnlessNotANumber(header: RetryHeader)
    ensures forall s: real :: header == Number(Finite(s)) && 0.0 <= s <= 900.0 ==> Read(RateLimitedReply(header)) == Limited(s)
    ensures forall s: real :: header == Number(Finite(s)) && s > 900.0 ==> Read(RateLimitedReply(header)) == Limited(900.0)
    ensures forall s: real :: header == Number(Finite(s)) && s < 0.0 ==> Read(RateLimitedReply(header)) == Limited(60.0)
    ensures header == Number(PositiveInfinity) ==> Read(RateLimitedReply(header)) == Limited(900.0)
    ensures header == Number(NegativeInfinity) || header == Junk || header == Absent ==>
              Read(RateLimitedReply(header)) == Limited(60.0)
    ensures header == Number(NotANumber) <==> Read(RateLimitedReply(header)) == Broken
  {
  }

  /** With a URL that can be posted to, the drain can read every reply of the built-in sender but one; with
      any other URL it can read none.  What it reads is the code of a success, the wait of a 429, and the
      category and code of any other failure. */
  lemma BuiltInSenderIsReadable(url: string, response: Response)
    ensures Read(BuiltInReply(url, response)).Broken? <==> !Postable(url) || response == TooManyRequests(Number(NotANumber))
    ensures forall http: int :: Postable(url) && response == Success(http) ==>
              Read(BuiltInReply(url, response)) == Accepted(Some(http))
    ensures Postable(url) && response.TooManyRequests? ==>
              && Read(BuiltInReply(url, response)) == Read(RateLimitedReply(response.header))
              && var outcome := NormalizeOutcome(BuiltInReply(url, response));
                 outcome.Some? && !outcome.value.ok && outcome.value.err == Some("http_429_rate_limited")
                 && outcome.value.status == Some(429)
    ensures forall category, code :: Postable(url) && response == Failure(category, code) && category != "http_429_rate_limited" ==>
              Read(BuiltInReply(url, response)) == Refused(Some(category), code)
  {
    if response.TooManyRequests? { RetryAfterIsClampedUnlessNotANumber(response.header); }
  }

  /** A reply of any sender: whatever its shape, the flag decides, a 429 is known by its category, and a 429
      without a wait is waited out for a minute. */
  lemma RepliesAreReadAlike(ok: bool, err: Option<string>, status: Option<int>, retry: Option<Seconds>)
    ensures ok ==>
              && Read(Four(ok, err, status, retry)) == Accepted(status)
              && Read(Three(ok, err, retry)) == Accepted(None) && Read(Two(ok, err)) == Accepted(None)
    ensures !ok && err != Some("http_429_rate_limited") ==>
              && Read(Four(ok, err, status, retry)) == Refused(err, status)
              && Read(Three(ok, err, retry)) == Refused(err, None) && Read(Two(ok, err)) == Refused(err, None)
    ensures !ok && err == Some("http_429_rate_limited") ==>
              && Read(Two(ok, err)) == Limited(60.0) && Read(Four(ok, err, status, retry)) == Read(Three(ok, err, retry))
              && (retry == None ==> Read(Three(ok, err, retry)) == Limited(60.0))
              && (forall wait: real :: retry == Some(Finite(wait)) ==> Read(Three(ok, err, retry)) == Limited(wait))
              && (retry.Some? && !retry.value.Finite? ==> Read(Three(ok, err, retry)) == Broken)
    ensures Read(Misshapen) == Broken && Read(Thrown) == Broken
  {
  }

  // ---------------------------------------------------------------- rows

  datatype Status = Pending | Sent | Failed | Held

  datatype DedupKey = DiscoveryKey(discovery: nat) | TestKey(draw: nat)

  datatype Payload = DiscoveryEmbed(discovery: nat) | TestEmbed(note: string)

  datatype Row = Row(
    key: DedupKey, discoveryId: Option<nat>, eventTime: Stamp, payload: Payload,
    status: Status, attempts: nat, lastError: Option<string>, httpStatus: Option<int>,
    notBefore: Stamp, lastAttemptAt: Option<Instant>, sentAt: Option<Instant>)

  function FreshRow(key: DedupKey, discoveryId: Option<nat>, eventTime: Stamp, payload: Payload): Row {
    Row(key, discoveryId, eventTime, payload, Pending, 0, None, None, Missing, None, None)
  }

  function NotificationFor(id: nat, eventTime: Stamp): Row {
    FreshRow(DiscoveryKey(id), Some(id), eventTime, DiscoveryEmbed(id))
  }

  predicate HasKey(rows: seq<Row>, key: DedupKey) {
    exists i :: 0 <= i < |rows| && rows[i].key == key
  }

  /** INSERT OR IGNORE on the unique key. */
  function Put(rows: seq<Row>, row: Row): seq<Row> {
    if HasKey(rows, row.key) then rows else rows + [row]
  }

  function Mark(row: Row, status: Status, error: Option<string>, http: Option<int>, countAttempt: bool,
                now: Instant): Row {
    row.(status := status, lastError := error, httpStatus := http,
         attempts := row.attempts + (if countAttempt then 1 else 0), lastAttemptAt := Some(now),
         sentAt := if status == Sent then Some(now) else row.sentAt)
  }

  function Requeued(row: Row): Row {
    if row.status == Failed
    then row.(status := Pending, attempts := 0, lastError := None, httpStatus := None, notBefore := Missing)
    else row
  }

  function RequeueFailed(rows: seq<Row>): seq<Row> {
    seq(|rows|, i requires 0 <= i < |rows| => Requeued(rows[i]))
  }

  /** What a row says, and of what and when: no delivery changes it. */
  predicate SameMessage(row: Row, after: Row) {
    after.key == row.key && after.discoveryId == row.discoveryId && after.eventTime == row.eventTime && after.payload == row.payload
  }

  /** Nothing but row `id` changed. */
  ghost predicate OnlyRow(rows: seq<Row>, after: seq<Row>, id: nat) {
    |after| == |rows| && forall k :: 0 <= k < |rows| && k != id ==> after[k] == rows[k]
  }

  /** A mark sets the state of the last attempt and leaves the message and the floor; the attempt is counted
      only on request, and only a row marked sent gets a new delivery time. */
  predicate Marked(row: Row, after: Row, status: Status, error: Option<string>, http: Option<int>, countAttempt: bool,
                   now: Instant) {
    && SameMessage(row, after) && after.notBefore == row.notBefore
    && after.status == status && after.lastError == error && after.httpStatus == http && after.lastAttemptAt == Some(now)
    && after.attempts - row.attempts == (if countAttempt then 1 else 0)
    && (status == Sent ==> after.sentAt == Some(now)) && (status != Sent ==> after.sentAt == row.sentAt)
  }

  /** A deferral sets the floor and nothing else: it costs no attempt. */
  predicate Postponed(row: Row, after: Row, until: Instant) {
    && SameMessage(row, after) && after.notBefore == At(until)
    && after.status == row.status && after.attempts == row.attempts && after.lastError == row.lastError
    && after.httpStatus == row.httpStatus && after.lastAttemptAt == row.lastAttemptAt && after.sentAt == row.sentAt
  }

  /** A requeued row is pending with a whole attempt budget and no floor; when it was last tried stays. */
  predicate Refreshed(row: Row, after: Row) {
    && SameMessage(row, after) && after.status == Pending && after.attempts == 0 && after.notBefore == Missing
    && after.lastError == None && after.httpStatus == None
    && after.lastAttemptAt == row.lastAttemptAt && after.sentAt == row.sentAt
  }

  /** These say all there is to say about the new table. */
  lemma MarkedIsTheTable(rows: seq<Row>, after: seq<Row>, id: nat, status: Status, error: Option<string>, http: Option<int>,
                         countAttempt: bool, now: Instant)
    requires id < |rows| && OnlyRow(rows, after, id)
    ensures Marked(rows[id], after[id], status, error, http, countAttempt, now) <==>
              after == rows[id := Mark(rows[id], status, error, http, countAttempt, now)]
  {
    if Marked(rows[id], after[id], status, error, http, countAttempt, now) {
      assert after[id] == Mark(rows[id], status, error, http, countAttempt, now);
    }
  }

  lemma PostponedIsTheTable(rows: seq<Row>, after: seq<Row>, id: nat, until: Instant)
    requires id < |rows| && OnlyRow(rows, after, id)
    ensures Postponed(rows[id], after[id], until) <==> after == rows[id := rows[id].(notBefore := At(until))]
  {
    if Postponed(rows[id], after[id], until) { assert after[id] == rows[id].(notBefore := At(until)); }
  }

  predicate Selectable(row: Row, includeHeld: bool) {
    row.status == Pending || (includeHeld && row.status == Held)
  }

  /** SELECT ... ORDER BY id: the positions of the selectable rows, in increasing order. */
  function SelectedIds(rows: seq<Row>, includeHeld: bool): (ids: seq<nat>)
    ensures forall k :: 0 <= k < |ids| ==> ids[k] < |rows| && Selectable(rows[ids[k]], includeHeld)
    ensures forall i, k :: 0 <= i < k < |ids| ==> ids[i] < ids[k]
    ensures forall i :: 0 <= i < |rows| && Selectable(rows[i], includeHeld) ==> i in ids
  {
    if rows == [] then []
    else
      var last := |rows| - 1;
      var front := SelectedIds(rows[..last], includeHeld);
      if Selectable(rows[last], includeHeld) then front + [last] else front
  }

  /** A drain selects the pending rows, and a replay the held ones too. */
  lemma SelectionIsExact(rows: seq<Row>, includeHeld: bool, i: nat)
    ensures i in SelectedIds(rows, includeHeld) <==>
              i < |rows| && (rows[i].status == Pending || (includeHeld && rows[i].status == Held))
  {
    if i < |rows| && Selectable(rows[i], includeHeld) { assert i in SelectedIds(rows, includeHeld); }
  }

  // ---------------------------------------------------------------- one row in a drain

  function EligibleAt(row: Row, now: Instant): bool {
    row.notBefore.At? ==> now >= row.notBefore.instant
  }

  function VerdictFor(row: Row, includeHeld: bool, policy: Policy): Verdict {
    if includeHeld then Send else Decide(row.eventTime, policy)
  }

  function ReasonText(v: Verdict): string {
    match v
    case Send => "send"
    case HeldBeforeCutoff => "held_before_cutoff"
    case HeldUnknownEventTime => "held_unknown_event_time"
    case HeldPolicyUnreadable => "held_policy_unreadable"
  }

  function HoldRow(row: Row, v: Verdict, now: Instant): Row {
    Mark(row, Held, Some(ReasonText(v)), None, false, now)
  }

  /** What the drain writes to `row` for an answer; the attempt budget is read from the copy of the row
      taken when the drain selected it. */
  function Recorded(row: Row, copy: Row, answer: Answer, now: Instant): Row {
    match answer
    case Accepted(http) => Mark(row, Sent, None, http, true, now)
    case Limited(wait) => row.(notBefore := At(now + wait))
    case Refused(error, http) =>
      Mark(row, if copy.attempts + 1 >= MAX_ATTEMPTS then Failed else Pending, error, http, true, now)
    case Broken => row
  }
}
