/** Sequences of acceptances at times that never go back, with a registry that may forget a nonce once
    its expiry has come. */
module ReplayRuns {
  import opened ReplayWindow

  datatype State = State(registry: Registry, now: int)

  datatype Step =
    | Elapse(ms: nat)
    | Evaluate(envelope: Envelope, answer: RegistryAnswer)
    | Forget(token: string)

  function Perform(s: State, step: Step): State {
    match step
    case Elapse(ms) => s.(now := s.now + ms)
    case Evaluate(e, answer) => s.(registry := Judge(s.registry, e, s.now, answer).0)
    case Forget(token) => if token in s.registry && s.now >= s.registry[token] then s.(registry := s.registry - {token}) else s
  }

  function Run(s: State, steps: seq<Step>): State
    decreases |steps|
  {
    if steps == [] then s else Run(Perform(s, steps[0]), steps[1..])
  }

  /** The envelope is accepted when evaluated now. */
  predicate AcceptsNow(s: State, e: Envelope) {
    Accepts(s.registry, e, s.now, Serves)
  }

  /** A nonce consumed with this expiry is still held, or its expiry has come. */
  predicate HeldUntil(s: State, token: string, expiry: int) {
    s.now >= expiry || (token in s.registry && s.registry[token] == expiry)
  }

  lemma StepHolds(s: State, step: Step, token: string, expiry: int)
    requires HeldUntil(s, token, expiry)
    ensures HeldUntil(Perform(s, step), token, expiry)
    ensures Perform(s, step).now >= s.now
  {
  }

  lemma {:induction false} RunHolds(s: State, steps: seq<Step>, token: string, expiry: int)
    requires HeldUntil(s, token, expiry)
    ensures HeldUntil(Run(s, steps), token, expiry) && Run(s, steps).now >= s.now
    decreases |steps|
  {
    if steps != [] {
      StepHolds(s, steps[0], token, expiry);
      RunHolds(Perform(s, steps[0]), steps[1..], token, expiry);
    }
  }

  /** The state after accepting the envelope now. */
  function AfterAccepting(s: State, e: Envelope): State {
    Perform(s, Evaluate(e, Serves))
  }

  /** Between two acceptances of one token, by whatever envelopes, the first one's expiry must come. */
  lemma NonceHeldUntilExpiry(s: State, first: Envelope, later: seq<Step>, second: Envelope)
    requires AcceptsNow(s, first) && first.token == second.token
    requires AcceptsNow(Run(AfterAccepting(s, first), later), second)
    ensures Run(AfterAccepting(s, first), later).now >= ExpiryOf(first, s.now)
  {
    RunHolds(AfterAccepting(s, first), later, first.token, ExpiryOf(first, s.now));
  }

  /** An envelope whose receivedAt is not after its first acceptance is accepted only once, whatever
      else is evaluated and however eagerly the registry forgets. */
  lemma AcceptedAtMostOnce(s: State, e: Envelope, later: seq<Step>)
    requires AcceptsNow(s, e) && e.receivedAt.value <= s.now
    ensures !AcceptsNow(Run(AfterAccepting(s, e), later), e)
  {
    var then_ := Run(AfterAccepting(s, e), later);
    if AcceptsNow(then_, e) {
      NonceHeldUntilExpiry(s, e, later, e);
      AcceptanceBounds(then_.registry, e, then_.now, Serves);
    }
  }

  ghost predicate CanRepeat(s: State, e: Envelope) {
    exists later :: AcceptsNow(Run(AfterAccepting(s, e), later), e)
  }

  /** In general an accepted envelope can be accepted again exactly when its sender's clock was ahead
      of the evaluation and, one replay window later, the signal is still not too old. */
  lemma RepeatPossibleExactlyWhen(s: State, e: Envelope)
    requires AcceptsNow(s, e)
    ensures CanRepeat(s, e) <==> e.receivedAt.value > s.now && s.now + TTL_MS - e.occurredAt.value <= MAX_AGE_MS
  {
    if CanRepeat(s, e) {
      var later :| AcceptsNow(Run(AfterAccepting(s, e), later), e);
      var then_ := Run(AfterAccepting(s, e), later);
      NonceHeldUntilExpiry(s, e, later, e);
      AcceptanceBounds(then_.registry, e, then_.now, Serves);
    }
    if e.receivedAt.value > s.now && s.now + TTL_MS - e.occurredAt.value <= MAX_AGE_MS {
      AcceptedTwice(s, e);
    }
  }

  lemma AcceptedTwice(s: State, e: Envelope)
    requires AcceptsNow(s, e) && e.receivedAt.value > s.now && s.now + TTL_MS - e.occurredAt.value <= MAX_AGE_MS
    ensures CanRepeat(s, e)
  {
    var accepted := AfterAccepting(s, e);
    var waited := Perform(accepted, Elapse(TTL_MS));
    var forgotten := Perform(waited, Forget(e.token));
    AcceptanceBounds(s.registry, e, s.now, Serves);
    assert accepted.registry == s.registry[e.token := s.now + TTL_MS];
    AcceptanceBounds(forgotten.registry, e, forgotten.now, Serves);
    var later: seq<Step> := [Elapse(TTL_MS), Forget(e.token)];
    assert later[1..] == [Forget(e.token)] && later[1..][1..] == [];
    assert Run(forgotten, []) == forgotten;
    assert Run(waited, later[1..]) == forgotten;
    assert Run(accepted, later) == forgotten;
  }
}
