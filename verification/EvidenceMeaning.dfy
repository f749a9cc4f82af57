/** What an evidence assessment says, told from the leases, observations and claims alone. */
module EvidenceMeaning {
  import opened Wrappers
  import opened SetBasics
  import opened Perception
  import opened EvidenceAssurance

  // ---------- when a claim counts ----------

  /** A well-formed lease on some observations, issued at most a second from now and not yet expired. */
  ghost predicate InForce(lease: Lease, now: int) {
    && lease.wellFormed && |lease.observationIds| > 0
    && lease.issuedAt.instant.Some? && lease.expiresAt.instant.Some?
    && lease.issuedAt.instant.value <= now + 1_000
    && now < lease.expiresAt.instant.value && lease.issuedAt.instant.value < lease.expiresAt.instant.value
  }

  /** A lease in force for this very context binds the observation to its class. */
  ghost predicate Binds(input: Input, lease: Lease, observationId: string) {
    && lease in input.leases && InForce(lease, input.now) && observationId in lease.observationIds
    && lease.context.purpose == input.context.purpose && lease.context.jurisdiction == input.context.jurisdiction
    && lease.context.eventEpoch == input.context.eventEpoch && lease.context.roadStateDigest == input.context.roadStateDigest
    && lease.context.objectBinding == input.context.objectBinding
  }

  /** This is the first observation with this id. */
  ghost predicate IsFirst(observations: seq<Observation>, observationId: string, o: Observation) {
    exists i: nat | i < |observations| ::
      observations[i] == o && o.observationId == observationId && forall j: nat | j < i :: observations[j].observationId != observationId
  }

  /** The claim is about this object and of this type. */
  ghost predicate OnTopic(input: Input, claim: Claim) {
    claim.objectBinding == input.context.objectBinding && claim.claimType == input.claimType
  }

  ghost predicate Confident(claim: Claim) {
    claim.confidence.Some? && 0.0 <= claim.confidence.value <= 1.0
  }

  /** The claim is on topic, with a confidence, rests on an observation that may be used, and leases bind this
      observation to one class only, this one. */
  ghost predicate Backed(input: Input, claim: Claim, class_: string) {
    && OnTopic(input, claim) && Confident(claim)
    && (exists o :: IsFirst(input.observations, claim.observationId, o) && MayBeUsed(o, input.now))
    && (exists lease :: Binds(input, lease, claim.observationId))
    && (forall lease | Binds(input, lease, claim.observationId) :: lease.classDigest == class_)
  }

  lemma {:induction false} FindIs(observations: seq<Observation>, id: string)
    ensures Find(observations, id).None? ==> forall o | o in observations :: o.observationId != id
    ensures Find(observations, id).Some? ==> IsFirst(observations, id, Find(observations, id).value)
  {
    if observations != [] {
      var n := |observations| - 1;
      var front := observations[..n];
      FindIs(front, id);
      assert observations == front + [observations[n]];
      if Find(front, id).Some? {
        var i: nat :| i < n && front[i] == Find(front, id).value && forall j: nat | j < i :: front[j].observationId != id;
        assert observations[i] == front[i];
      } else if Find(observations, id).Some? {
        forall j: nat | j < n ensures observations[j].observationId != id {
          assert front[j] in front;
        }
      }
    }
  }

  lemma OneIsFirst(observations: seq<Observation>, id: string, o: Observation, p: Observation)
    requires IsFirst(observations, id, o) && IsFirst(observations, id, p)
    ensures o == p
  {
    var i: nat :| i < |observations| && observations[i] == o && forall j: nat | j < i :: observations[j].observationId != id;
    var k: nat :| k < |observations| && observations[k] == p && forall j: nat | j < k :: observations[j].observationId != id;
    assert i == k;
  }

  /** The observation that a claim rests on, if there is one. */
  lemma FindMeans(input: Input, id: string)
    ensures Find(input.observations, id).None? <==> forall o | o in input.observations :: o.observationId != id
    ensures forall o :: Find(input.observations, id) == Some(o) <==> IsFirst(input.observations, id, o)
  {
    FindIs(input.observations, id);
    forall o | IsFirst(input.observations, id, o) ensures Find(input.observations, id) == Some(o) {
      assert o in input.observations;
      OneIsFirst(input.observations, id, o, Find(input.observations, id).value);
    }
  }

  lemma LeasesMean(input: Input, lease: Lease, id: string)
    ensures ValidLease(lease, input.now) <==> InForce(lease, input.now)
    ensures lease in input.leases && Applies(input, lease) && id in lease.observationIds <==> Binds(input, lease, id)
  {
  }

  lemma ClassesMean(input: Input, id: string, class_: string)
    ensures class_ in Classes(input, id) <==> exists lease :: Binds(input, lease, id) && lease.classDigest == class_
    ensures Classes(input, id) == {class_} <==>
      (exists lease :: Binds(input, lease, id)) && forall lease | Binds(input, lease, id) :: lease.classDigest == class_
  {
    forall lease ensures lease in input.leases && Applies(input, lease) && id in lease.observationIds <==> Binds(input, lease, id) {
      LeasesMean(input, lease, id);
    }
    if (exists lease :: Binds(input, lease, id)) && forall lease | Binds(input, lease, id) :: lease.classDigest == class_ {
      var lease :| Binds(input, lease, id);
      assert lease.classDigest in Classes(input, id);
      assert Classes(input, id) == {class_};
    }
    if Classes(input, id) == {class_} {
      assert class_ in Classes(input, id);
      forall lease | Binds(input, lease, id) ensures lease.classDigest == class_ {
        assert lease.classDigest in Classes(input, id);
      }
    }
  }

  /** A claim qualifies under a class exactly when it is backed by it. */
  lemma QualifiesMeans(input: Input, claim: Claim, class_: string)
    ensures Qualifies(input, claim, class_) <==> Backed(input, claim, class_)
  {
    FindMeans(input, claim.observationId);
    ClassesMean(input, claim.observationId, class_);
    if Find(input.observations, claim.observationId).Some? {
      AdmissionMeans(Find(input.observations, claim.observationId).value, input.now);
    }
    forall o ensures Usable(o, input.now) <==> MayBeUsed(o, input.now) {
      AdmissionMeans(o, input.now);
    }
  }

  // ---------- what is decided ----------

  /** A backed claim says so under this class. */
  ghost predicate Says(input: Input, class_: string, value: ClaimValue) {
    exists claim :: claim in input.claims && claim.value == value && Backed(input, claim, class_)
  }

  lemma ClaimsMean(input: Input, class_: string, value: ClaimValue)
    ensures Claims(input, class_, value) <==> Says(input, class_, value)
  {
    forall claim ensures Qualifies(input, claim, class_) <==> Backed(input, claim, class_) {
      QualifiesMeans(input, claim, class_);
    }
  }

  /** The classes on either side are those that say only the one; classes on both sides are a contradiction,
      otherwise the supporting ones have to be as many as asked for. */
  lemma DecisionMeans(input: Input)
    ensures forall c :: c in Supporting(input) <==> Says(input, c, Present) && !Says(input, c, Absent)
    ensures forall c :: c in Contradicting(input) <==> Says(input, c, Absent) && !Says(input, c, Present)
    ensures DecisionOf(input) == Contradicted <==> Supporting(input) != {} && Contradicting(input) != {}
    ensures input.minimum >= 1 ==>
      (DecisionOf(input) == Corroborated <==> |Supporting(input)| >= input.minimum && Contradicting(input) == {})
  {
    forall c
      ensures c in Supporting(input) <==> Says(input, c, Present) && !Says(input, c, Absent)
      ensures c in Contradicting(input) <==> Says(input, c, Absent) && !Says(input, c, Present)
    {
      ClaimsMean(input, c, Present);
      ClaimsMean(input, c, Absent);
      if Claims(input, c, Present) {
        ClaimedClassIsLeased(input, c, Present);
      }
      if Claims(input, c, Absent) {
        ClaimedClassIsLeased(input, c, Absent);
      }
    }
  }

  // ---------- the reasons given ----------

  ghost predicate RestsOnUsable(input: Input, claim: Claim) {
    exists o :: IsFirst(input.observations, claim.observationId, o) && MayBeUsed(o, input.now)
  }

  /** Leases of two classes bind the observation. */
  ghost predicate BoundTwice(input: Input, observationId: string) {
    exists a, b :: Binds(input, a, observationId) && Binds(input, b, observationId) && a.classDigest != b.classDigest
  }

  /** The first thing amiss with a claim that is set aside. */
  ghost predicate SetAside(input: Input, claim: Claim, reason: Reason) {
    match reason
    case ClaimContextMismatch => !OnTopic(input, claim)
    case InvalidClaimConfidence => OnTopic(input, claim) && !Confident(claim)
    case ClaimObservationNotFound =>
      OnTopic(input, claim) && Confident(claim) && forall o | o in input.observations :: o.observationId != claim.observationId
    case ObservationNotUsable(disposition) =>
      OnTopic(input, claim) && Confident(claim)
      && exists o :: IsFirst(input.observations, claim.observationId, o) && !MayBeUsed(o, input.now) && Admission(o, input.now) == disposition
    case NoIndependenceLease =>
      OnTopic(input, claim) && Confident(claim) && RestsOnUsable(input, claim) && forall lease :: !Binds(input, lease, claim.observationId)
    case AmbiguousIndependenceBinding =>
      OnTopic(input, claim) && Confident(claim) && RestsOnUsable(input, claim) && BoundTwice(input, claim.observationId)
    case _ => false
  }

  lemma ClassesCount(input: Input, id: string)
    ensures Classes(input, id) == {} <==> forall lease :: !Binds(input, lease, id)
    ensures Classes(input, id) != {} && |Classes(input, id)| != 1 <==> BoundTwice(input, id)
  {
    var classes := Classes(input, id);
    forall class_ ensures class_ in classes <==> exists lease :: Binds(input, lease, id) && lease.classDigest == class_ {
      ClassesMean(input, id, class_);
    }
    Several(classes);
    if a, b :| a in classes && b in classes && a != b {
      var x :| Binds(input, x, id) && x.classDigest == a;
      var y :| Binds(input, y, id) && y.classDigest == b;
    }
    forall lease | Binds(input, lease, id) ensures lease.classDigest in classes {}
  }

  lemma UsableWhenFound(input: Input, claim: Claim)
    ensures var found := Find(input.observations, claim.observationId);
      RestsOnUsable(input, claim) <==> found.Some? && Usable(found.value, input.now)
  {
    FindMeans(input, claim.observationId);
    var found := Find(input.observations, claim.observationId);
    if found.Some? {
      AdmissionMeans(found.value, input.now);
    }
  }

  lemma RejectionMeans(input: Input, claim: Claim, reason: Reason)
    ensures Rejection(input, claim) == Some(reason) <==> SetAside(input, claim, reason)
  {
    FindMeans(input, claim.observationId);
    UsableWhenFound(input, claim);
    ClassesCount(input, claim.observationId);
    if Find(input.observations, claim.observationId).Some? {
      AdmissionMeans(Find(input.observations, claim.observationId).value, input.now);
    }
  }

  /** Every reason that an assessment gives, and when it is given. */
  lemma ReasonsMean(input: Input, reason: Reason)
    ensures GivesReason(input, reason) <==>
      match reason
      case DuplicateObservationId =>
        exists i, j | 0 <= i < j < |input.observations| :: input.observations[i].observationId == input.observations[j].observationId
      case InvalidOrExpiredLease => exists lease | lease in input.leases :: !InForce(lease, input.now)
      case LeaseContextMismatch => exists lease | lease in input.leases :: InForce(lease, input.now) && lease.context != input.context
      case IntraClassContradiction => exists c :: Says(input, c, Present) && Says(input, c, Absent)
      case MaterialContradiction => DecisionOf(input) == Contradicted
      case InsufficientIndependentEvidence => DecisionOf(input) == InsufficientIndependence
      case _ => exists claim | claim in input.claims :: SetAside(input, claim, reason)
  {
    match reason
    case InvalidOrExpiredLease =>
      forall lease ensures ValidLease(lease, input.now) <==> InForce(lease, input.now) {}
    case LeaseContextMismatch =>
      forall lease ensures ValidLease(lease, input.now) <==> InForce(lease, input.now) {}
    case IntraClassContradiction => DisagreementMeans(input);
    case DuplicateObservationId =>
    case MaterialContradiction =>
    case InsufficientIndependentEvidence =>
    case _ =>
      forall claim ensures Rejection(input, claim) == Some(reason) <==> SetAside(input, claim, reason) {
        RejectionMeans(input, claim, reason);
      }
  }

  lemma DisagreementMeans(input: Input)
    ensures SomeClassDisagrees(input) <==> exists c :: Says(input, c, Present) && Says(input, c, Absent)
  {
    forall c, value ensures Claims(input, c, value) <==> Says(input, c, value) {
      ClaimsMean(input, c, value);
    }
    if c :| Says(input, c, Present) && Says(input, c, Absent) {
      ClaimedClassIsLeased(input, c, Present);
    }
  }
}
