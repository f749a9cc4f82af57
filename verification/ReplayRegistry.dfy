/** The nonce registry and the acceptance of envelopes against it, as an object. */
module ReplayRegistry {
  import opened Integers
  import opened Wrappers
  import opened ReplayWindow

  class ReplayNonceRegistry {
    var nonces: Registry

    constructor ()
      ensures nonces == map[]
    {
      nonces := map[];
    }

    /** Look up and insert in one atomic step. */
    method Consume(token: string, expiresAt: int, answer: RegistryAnswer) returns (r: ConsumeResult)
      modifies this
      ensures (nonces, r) == ReplayWindow.Consume(old(nonces), token, expiresAt, answer)
    {
      match answer {
        case Fails => return Unavailable;
        case SaysExpired => return Expired;
        case Serves =>
          if token in nonces {
            return Duplicate;
          }
          nonces := nonces[token := expiresAt];
          return Consumed;
      }
    }

    method AcceptEnvelope(e: Envelope, at: int, answer: RegistryAnswer) returns (r: Acceptance)
      modifies this
      ensures (nonces, r) == Judge(old(nonces), e, at, answer)
    {
      var structural := Validate(e);
      if structural.Some? {
        return Acceptance(false, structural.value, NotAttempted, None);
      }
      var latestTrustedSenderTime := at + SKEW_MS;
      if e.receivedAt.value > latestTrustedSenderTime || e.occurredAt.value > latestTrustedSenderTime {
        return Acceptance(false, Quarantine, NotAttempted, None);
      }
      if at - e.occurredAt.value > MAX_AGE_MS {
        return Acceptance(false, ToHumanReview, NotAttempted, None);
      }
      var expiresAt := Min(e.receivedAt.value, at) + TTL_MS;
      if at >= expiresAt {
        return Acceptance(false, Quarantine, Expired, Some(expiresAt));
      }
      var result := Consume(e.token, expiresAt, answer);
      if result != Consumed {
        return Acceptance(false, if result == Unavailable then ToHumanReview else Quarantine, result, Some(expiresAt));
      }
      return Acceptance(true, Accept, Consumed, Some(expiresAt));
    }
  }
}
