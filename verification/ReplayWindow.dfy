/** acceptHumanSafetySignalEnvelope: when a signed signal envelope is accepted, and how often.  A token
    digest stands for the token it digests. */
module ReplayWindow {
  import opened Integers
  import opened Wrappers

  const TTL_MS := 15 * 60 * 1000
  const SKEW_MS := 5 * 60 * 1000
  const MAX_AGE_MS := 30 * 60 * 1000

  datatype Signature = Verified | Unverified | BadSignature

  /** The flags stand for checks on the shape of the envelope: `headerOk` for those on its fields, ids and
      integrity metadata, `readable` for those on its location and on its payload being a record,
      `matchesSource` for the payload's kind being that of the source, and `contentOk` for those on
      the payload's fields and purpose.  Times are None when they do not parse. */
  datatype Envelope = Envelope(
    token: string, headerOk: bool, occurredAt: Option<int>, receivedAt: Option<int>,
    signature: Signature, clockSkewMs: int, readable: bool, matchesSource: bool, contentOk: bool)

  datatype Disposition = Accept | Quarantine | ToHumanReview

  datatype ConsumeResult = NotAttempted | Consumed | Duplicate | Expired | Unavailable

  datatype Acceptance = Acceptance(accepted: bool, disposition: Disposition, consumed: ConsumeResult, expiresAt: Option<int>)

  predicate Chronological(e: Envelope) {
    e.occurredAt.Some? && e.receivedAt.Some? && e.occurredAt.value <= e.receivedAt.value
  }

  function Abs(n: int): nat {
    if n < 0 then -n else n
  }

  /** Why the structural validation stops an envelope; None when only the replay check is left. */
  function Validate(e: Envelope): Option<Disposition> {
    if !e.headerOk then Some(Quarantine)
    else if !Chronological(e) then Some(Quarantine)
    else if e.signature == BadSignature then Some(Quarantine)
    else if e.signature == Unverified then Some(ToHumanReview)
    else if Abs(e.clockSkewMs) > SKEW_MS then Some(ToHumanReview)
    else if !e.readable then Some(Quarantine)
    else if !e.matchesSource then Some(ToHumanReview)
    else if !e.contentOk then Some(Quarantine)
    else None
  }

  function ExpiryOf(e: Envelope, at: int): int
    requires Chronological(e)
  {
    Min(e.receivedAt.value, at) + TTL_MS
  }

  /** The nonces held, each with the time from which it may be forgotten. */
  type Registry = map<string, int>

  datatype RegistryAnswer = Serves | SaysExpired | Fails

  function Consume(registry: Registry, token: string, expiresAt: int, answer: RegistryAnswer): (Registry, ConsumeResult) {
    match answer
    case Fails => (registry, Unavailable)
    case SaysExpired => (registry, Expired)
    case Serves => if token in registry then (registry, Duplicate) else (registry[token := expiresAt], Consumed)
  }

  function Judge(registry: Registry, e: Envelope, at: int, answer: RegistryAnswer): (Registry, Acceptance) {
    if Validate(e).Some? then (registry, Acceptance(false, Validate(e).value, NotAttempted, None))
    else
      var occurredAt, receivedAt := e.occurredAt.value, e.receivedAt.value;
      if receivedAt > at + SKEW_MS || occurredAt > at + SKEW_MS then (registry, Acceptance(false, Quarantine, NotAttempted, None))
      else if at - occurredAt > MAX_AGE_MS then (registry, Acceptance(false, ToHumanReview, NotAttempted, None))
      else
        var expiresAt := ExpiryOf(e, at);
        if at >= expiresAt then (registry, Acceptance(false, Quarantine, Expired, Some(expiresAt)))
        else
          var (after, result) := Consume(registry, e.token, expiresAt, answer);
          (after, match result
                  case Consumed => Acceptance(true, Accept, Consumed, Some(expiresAt))
                  case Unavailable => Acceptance(false, ToHumanReview, Unavailable, Some(expiresAt))
                  case other => Acceptance(false, Quarantine, other, Some(expiresAt)))
  }

  predicate Accepts(registry: Registry, e: Envelope, at: int, answer: RegistryAnswer) {
    Judge(registry, e, at, answer).1.accepted
  }

  // ---------- when an envelope is accepted, and what the refusals say ----------

  /** Well formed, verified, with a skew of at most five minutes, and a payload that fits its source. */
  ghost predicate WellFormed(e: Envelope) {
    && e.headerOk && e.signature == Verified && -300_000 <= e.clockSkewMs <= 300_000
    && e.readable && e.matchesSource && e.contentOk
    && e.occurredAt.Some? && e.receivedAt.Some? && e.occurredAt.value <= e.receivedAt.value
  }

  /** The evaluation comes at most five minutes before the receipt and thirty after the event. */
  ghost predicate Timely(e: Envelope, at: int)
    requires WellFormed(e)
  {
    e.receivedAt.value - 300_000 <= at <= e.occurredAt.value + 1_800_000
  }

  /** An envelope is accepted exactly when it is well formed and timely, evaluated less than fifteen minutes after
      its receipt, and the registry serves and does not hold its nonce.  Then, and only then, the registry holds
      it, until fifteen minutes after the receipt or the evaluation, whichever is earlier. */
  lemma AcceptanceBounds(registry: Registry, e: Envelope, at: int, answer: RegistryAnswer)
    ensures var (after, a) := Judge(registry, e, at, answer);
      && a.accepted == Accepts(registry, e, at, answer)
      && (a.accepted <==>
            WellFormed(e) && Timely(e, at) && at < e.receivedAt.value + 900_000 && answer == Serves && e.token !in registry)
      && after == (if a.accepted then registry[e.token := Min(e.receivedAt.value, at) + 900_000] else registry)
  {
  }

  /** Validation stops exactly the envelopes that are not well formed.  It hands one to people instead of
      quarantining it exactly when the first thing amiss is an unverified signature, the skew, or a payload that
      does not fit its source. */
  lemma ValidationMeans(e: Envelope)
    ensures Validate(e).None? <==> WellFormed(e)
    ensures Validate(e) != Some(Accept)
    ensures Validate(e) == Some(ToHumanReview) <==>
      && e.headerOk && e.occurredAt.Some? && e.receivedAt.Some? && e.occurredAt.value <= e.receivedAt.value
      && e.signature != BadSignature
      && (e.signature == Unverified || !(-300_000 <= e.clockSkewMs <= 300_000) || (e.readable && !e.matchesSource))
  {
  }

  /** A refusal calls for people exactly when validation does, when the event is too old, or when the registry
      could not be asked; any other quarantines the envelope.  It says how far the replay check got. */
  lemma RefusalMeans(registry: Registry, e: Envelope, at: int, answer: RegistryAnswer)
    requires !Accepts(registry, e, at, answer)
    ensures var a := Judge(registry, e, at, answer).1;
      if !WellFormed(e) then a == Acceptance(false, Validate(e).value, NotAttempted, None)
      else if !Timely(e, at) then
        a == Acceptance(false, if at < e.receivedAt.value - 300_000 then Quarantine else ToHumanReview, NotAttempted, None)
      else
        && a.expiresAt == Some(Min(e.receivedAt.value, at) + 900_000)
        && (a.disposition == ToHumanReview <==> a.consumed == Unavailable) && a.disposition != Accept
        && a.consumed == (if at >= e.receivedAt.value + 900_000 || answer == SaysExpired then Expired
                          else if answer == Fails then Unavailable else Duplicate)
  {
    ValidationMeans(e);
  }

  lemma AcceptanceSays(registry: Registry, e: Envelope, at: int, answer: RegistryAnswer)
    requires Accepts(registry, e, at, answer)
    ensures Judge(registry, e, at, answer).1 == Acceptance(true, Accept, Consumed, Some(Min(e.receivedAt.value, at) + 900_000))
  {
  }
}
