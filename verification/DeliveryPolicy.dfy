/**
 The activation policy: may a queued notification be sent now, or must it be held?
 Models notifications/delivery_policy.py.
 */
module DeliveryPolicy {
  import opened Common

  /** A stored timestamp: NULL or blank, text that is no timestamp, or an instant. */
  datatype Stamp = Missing | Unreadable | At(instant: Instant)

  function ParseTimestamp(raw: Stamp): Option<Instant> {
    match raw
    case At(t) => Some(t)
    case _ => None
  }

  datatype Policy = Policy(cutoff: Option<Instant>, raw: Option<Stamp>, unreadable: bool)

  function LoadPolicy(raw: Option<Stamp>): Policy {
    match raw
    case None => Policy(None, None, false)
    case Some(text) =>
      match ParseTimestamp(text)
      case None => Policy(None, raw, true)
      case Some(t) => Policy(Some(t), raw, false)
  }

  datatype Verdict = Send | HeldBeforeCutoff | HeldUnknownEventTime | HeldPolicyUnreadable

  function Decide(eventTime: Stamp, policy: Policy): Verdict {
    if policy.unreadable then HeldPolicyUnreadable
    else if policy.cutoff == None then Send
    else
      match ParseTimestamp(eventTime)
      case None => HeldUnknownEventTime
      case Some(t) => if t >= policy.cutoff.value then Send else HeldBeforeCutoff
  }

  /** What the operator was promised: a row leaves under a loaded policy exactly when no cutoff is
      installed, or the cutoff can be read and the row provably happened at or after it. */
  ghost predicate Cleared(eventTime: Stamp, raw: Option<Stamp>) {
    raw == None || (exists cutoff, t :: raw == Some(At(cutoff)) && eventTime == At(t) && cutoff <= t)
  }

  /** A row is sent if and only if it is cleared; otherwise it is held for an unreadable policy, for an unknown
      time, or for one before the cutoff, in this order. */
  lemma FailsClosed(eventTime: Stamp, raw: Option<Stamp>)
    ensures Decide(eventTime, LoadPolicy(raw)) == Send <==> Cleared(eventTime, raw)
    ensures Decide(eventTime, LoadPolicy(raw)) == HeldPolicyUnreadable <==> raw == Some(Missing) || raw == Some(Unreadable)
    ensures Decide(eventTime, LoadPolicy(raw)) == HeldUnknownEventTime <==> raw.Some? && raw.value.At? && !eventTime.At?
    ensures Decide(eventTime, LoadPolicy(raw)) == HeldBeforeCutoff <==>
              raw.Some? && raw.value.At? && eventTime.At? && eventTime.instant < raw.value.instant
  {
    if raw.Some? && raw.value.At? && eventTime.At? {
      assert raw == Some(At(raw.value.instant)) && eventTime == At(eventTime.instant);
    }
  }
}
