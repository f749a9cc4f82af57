/** assessEvidenceClaims as the source computes it, loop by loop. */
module EvidenceAssessor {
  import opened Wrappers
  import opened SetBasics
  import opened StableSort
  import opened TextOrder
  import opened Perception
  import opened EvidenceAssurance

  datatype AssessError = InvalidMinimum

  datatype QualifiedClaim = QualifiedClaim(claim: Claim, class_: string)

  const MAX_SAFE_INTEGER := 9007199254740991

  method IndexObservations(observations: seq<Observation>) returns (found: map<string, Observation>, duplicates: bool)
    ensures forall id :: id in found <==> Find(observations, id).Some?
    ensures forall id | id in found :: found[id] == Find(observations, id).value
    ensures duplicates <==> !IdsDistinct(observations)
  {
    found, duplicates := map[], false;
    for n := 0 to |observations|
      invariant forall id :: id in found <==> Find(observations[..n], id).Some?
      invariant forall id | id in found :: found[id] == Find(observations[..n], id).value
      invariant duplicates <==> !IdsDistinct(observations[..n])
    {
      var observation := observations[n];
      assert observations[..n + 1] == observations[..n] + [observation];
      assert observations[..n + 1][..n] == observations[..n];
      DuplicatesExtend(observations[..n], observation);
      if observation.observationId in found {
        duplicates := true;
      } else {
        found := found[observation.observationId := observation];
      }
    }
    assert observations[..|observations|] == observations;
  }

  lemma {:induction false} FindsWhatIsThere(observations: seq<Observation>, id: string)
    ensures Find(observations, id).Some? <==> exists i | 0 <= i < |observations| :: observations[i].observationId == id
    decreases |observations|
  {
    if observations != [] {
      var front := observations[..|observations| - 1];
      FindsWhatIsThere(front, id);
      if i :| 0 <= i < |front| && front[i].observationId == id {
        assert observations[i].observationId == id;
      }
    }
  }

  lemma DuplicatesExtend(front: seq<Observation>, last: Observation)
    ensures !IdsDistinct(front + [last]) <==> !IdsDistinct(front) || Find(front, last.observationId).Some?
  {
    var all := front + [last];
    FindsWhatIsThere(front, last.observationId);
    if !IdsDistinct(front) {
      var i, j :| 0 <= i < j < |front| && front[i].observationId == front[j].observationId;
      assert all[i].observationId == all[j].observationId;
    }
    if i :| 0 <= i < |front| && front[i].observationId == last.observationId {
      assert all[i].observationId == all[|front|].observationId;
    }
  }

  // ---------- leases ----------

  function ClassesIn(byObservation: map<string, seq<Lease>>, id: string): set<string> {
    if id in byObservation then set lease | lease in byObservation[id] :: lease.classDigest else {}
  }

  predicate Listed(byObservation: map<string, seq<Lease>>, id: string, lease: Lease) {
    id in byObservation && lease in byObservation[id]
  }

  method AddLease(byObservation: map<string, seq<Lease>>, lease: Lease) returns (r: map<string, seq<Lease>>)
    ensures forall id, other :: Listed(r, id, other) <==> Listed(byObservation, id, other) || (other == lease && id in lease.observationIds)
  {
    r := byObservation;
    for n := 0 to |lease.observationIds|
      invariant forall id, other :: Listed(r, id, other) <==> Listed(byObservation, id, other) || (other == lease && id in lease.observationIds[..n])
    {
      var observationId := lease.observationIds[n];
      assert lease.observationIds[..n + 1] == lease.observationIds[..n] + [observationId];
      var existing := if observationId in r then r[observationId] else [];
      r := r[observationId := existing + [lease]];
    }
    assert lease.observationIds[..|lease.observationIds|] == lease.observationIds;
  }

  method IndexLeases(input: Input) returns (byObservation: map<string, seq<Lease>>, reasons: set<Reason>)
    ensures forall id :: ClassesIn(byObservation, id) == Classes(input, id)
    ensures forall reason :: reason in reasons <==> (reason == InvalidOrExpiredLease || reason == LeaseContextMismatch) && GivesReason(input, reason)
  {
    byObservation, reasons := map[], {};
    for n := 0 to |input.leases|
      invariant forall id, lease :: Listed(byObservation, id, lease) <==> lease in input.leases[..n] && Applies(input, lease) && id in lease.observationIds
      invariant reasons <= {InvalidOrExpiredLease, LeaseContextMismatch}
      invariant InvalidOrExpiredLease in reasons <==> exists lease | lease in input.leases[..n] :: !ValidLease(lease, input.now)
      invariant LeaseContextMismatch in reasons <==> exists lease | lease in input.leases[..n] :: ValidLease(lease, input.now) && lease.context != input.context
    {
      var lease := input.leases[n];
      assert input.leases[..n + 1] == input.leases[..n] + [lease];
      if !ValidLease(lease, input.now) {
        reasons := reasons + {InvalidOrExpiredLease};
      } else if lease.context != input.context {
        reasons := reasons + {LeaseContextMismatch};
      } else {
        byObservation := AddLease(byObservation, lease);
      }
    }
    assert input.leases[..|input.leases|] == input.leases;
    forall id ensures ClassesIn(byObservation, id) == Classes(input, id) {
      ListedClasses(input, byObservation, id);
    }
  }

  lemma ListedClasses(input: Input, byObservation: map<string, seq<Lease>>, id: string)
    requires forall lease :: Listed(byObservation, id, lease) <==> lease in input.leases && Applies(input, lease) && id in lease.observationIds
    ensures ClassesIn(byObservation, id) == Classes(input, id)
  {
    forall c | c in Classes(input, id) ensures c in ClassesIn(byObservation, id) {
      var lease :| lease in input.leases && Applies(input, lease) && id in lease.observationIds && lease.classDigest == c;
      assert Listed(byObservation, id, lease);
    }
    forall c | c in ClassesIn(byObservation, id) ensures c in Classes(input, id) {
      var lease :| lease in byObservation[id] && lease.classDigest == c;
      assert Listed(byObservation, id, lease);
    }
  }

  // ---------- claims ----------

  method QualifyClaims(input: Input, found: map<string, Observation>, byObservation: map<string, seq<Lease>>)
      returns (qualified: seq<QualifiedClaim>, reasons: set<Reason>)
    requires forall id :: id in found <==> Find(input.observations, id).Some?
    requires forall id | id in found :: found[id] == Find(input.observations, id).value
    requires forall id :: ClassesIn(byObservation, id) == Classes(input, id)
    ensures forall q :: q in qualified <==> q.claim in input.claims && Qualifies(input, q.claim, q.class_)
    ensures forall reason :: reason in reasons <==> SomeClaimRejected(input, reason)
  {
    qualified, reasons := [], {};
    for n := 0 to |input.claims|
      invariant forall q :: q in qualified <==> q.claim in input.claims[..n] && Qualifies(input, q.claim, q.class_)
      invariant forall reason :: reason in reasons <==> exists claim | claim in input.claims[..n] :: Rejection(input, claim) == Some(reason)
    {
      var claim := input.claims[n];
      assert input.claims[..n + 1] == input.claims[..n] + [claim];
      var judged := QualifyClaim(input, found, byObservation, claim);
      match judged {
        case Success(class_) => qualified := qualified + [QualifiedClaim(claim, class_)];
        case Failure(reason) => reasons := reasons + {reason};
      }
    }
    assert input.claims[..|input.claims|] == input.claims;
  }

  method QualifyClaim(input: Input, found: map<string, Observation>, byObservation: map<string, seq<Lease>>, claim: Claim)
      returns (r: Result<string, Reason>)
    requires forall id :: id in found <==> Find(input.observations, id).Some?
    requires forall id | id in found :: found[id] == Find(input.observations, id).value
    requires forall id :: ClassesIn(byObservation, id) == Classes(input, id)
    ensures r.Success? ==> Rejection(input, claim).None? && Classes(input, claim.observationId) == {r.value}
    ensures r.Failure? ==> Rejection(input, claim) == Some(r.error)
  {
    if claim.objectBinding != input.context.objectBinding || claim.claimType != input.claimType {
      return Failure(ClaimContextMismatch);
    }
    if claim.confidence.None? || claim.confidence.value < 0.0 || claim.confidence.value > 1.0 {
      return Failure(InvalidClaimConfidence);
    }
    if claim.observationId !in found {
      return Failure(ClaimObservationNotFound);
    }
    var admission := Admission(found[claim.observationId], input.now);
    if admission != Accept && admission != DegradedUsable {
      return Failure(ObservationNotUsable(admission));
    }
    var distinctClasses := ClassesIn(byObservation, claim.observationId);
    if claim.observationId !in byObservation || byObservation[claim.observationId] == [] {
      assert distinctClasses == {};
      return Failure(NoIndependenceLease);
    }
    assert byObservation[claim.observationId][0].classDigest in distinctClasses;
    if |distinctClasses| != 1 {
      return Failure(AmbiguousIndependenceBinding);
    }
    return Success(Sole(distinctClasses));
  }

  // ---------- classes ----------

  ghost predicate SaidUnder(qualified: seq<QualifiedClaim>, class_: string, value: ClaimValue) {
    exists q | q in qualified :: q.class_ == class_ && q.claim.value == value
  }

  predicate Grouped(values: map<string, set<ClaimValue>>, class_: string, value: ClaimValue) {
    class_ in values && value in values[class_]
  }

  method GroupValues(qualified: seq<QualifiedClaim>) returns (values: map<string, set<ClaimValue>>, order: seq<string>)
    ensures Distinct(order) && forall c :: c in order <==> c in values
    ensures forall c, v :: Grouped(values, c, v) <==> SaidUnder(qualified, c, v)
  {
    values, order := map[], [];
    for n := 0 to |qualified|
      invariant Distinct(order) && forall c :: c in order <==> c in values
      invariant forall c, v :: Grouped(values, c, v) <==> SaidUnder(qualified[..n], c, v)
    {
      var item := qualified[n];
      assert qualified[..n + 1] == qualified[..n] + [item];
      ghost var before := values;
      if item.class_ !in values {
        order := order + [item.class_];
      }
      var said := if item.class_ in values then values[item.class_] else {};
      values := values[item.class_ := said + {item.claim.value}];
      forall c, v ensures Grouped(values, c, v) <==> SaidUnder(qualified[..n + 1], c, v) {
        SaidExtend(qualified[..n], item, c, v);
        assert Grouped(values, c, v) <==> Grouped(before, c, v) || (c == item.class_ && v == item.claim.value);
      }
    }
    assert qualified[..|qualified|] == qualified;
  }

  lemma SaidExtend(front: seq<QualifiedClaim>, last: QualifiedClaim, class_: string, value: ClaimValue)
    ensures SaidUnder(front + [last], class_, value) <==> SaidUnder(front, class_, value) || (class_ == last.class_ && value == last.claim.value)
  {
    if SaidUnder(front, class_, value) {
      var q :| q in front && q.class_ == class_ && q.claim.value == value;
      assert q in front + [last];
    }
    if class_ == last.class_ && value == last.claim.value {
      assert last in front + [last];
    }
  }

  /** Sort the classes into supporting, contradicting and self-contradicting, in the order seen. */
  method Weigh(values: map<string, set<ClaimValue>>, order: seq<string>)
      returns (supporting: seq<string>, contradicting: seq<string>, disagreed: bool)
    requires Distinct(order) && forall c :: c in order <==> c in values
    ensures Distinct(supporting) && forall c :: c in supporting <==> c in values && values[c] - {UnknownValue} == {Present}
    ensures Distinct(contradicting) && forall c :: c in contradicting <==> c in values && values[c] - {UnknownValue} == {Absent}
    ensures disagreed <==> exists c | c in values :: Present in values[c] && Absent in values[c]
  {
    supporting, contradicting, disagreed := [], [], false;
    for n := 0 to |order|
      invariant Distinct(supporting) && forall c :: c in supporting <==> c in order[..n] && values[c] - {UnknownValue} == {Present}
      invariant Distinct(contradicting) && forall c :: c in contradicting <==> c in order[..n] && values[c] - {UnknownValue} == {Absent}
      invariant disagreed <==> exists c | c in order[..n] :: Present in values[c] && Absent in values[c]
    {
      var c := order[n];
      assert order[..n + 1] == order[..n] + [c];
      assert c !in order[..n];
      var materialValues := values[c] - {UnknownValue};
      MaterialValues(materialValues);
      if |materialValues| > 1 {
        disagreed := true;
      } else if Present in materialValues {
        supporting := supporting + [c];
      } else if Absent in materialValues {
        contradicting := contradicting + [c];
      }
    }
    assert order[..|order|] == order;
  }

  lemma MaterialValues(values: set<ClaimValue>)
    requires UnknownValue !in values
    ensures |values| > 1 <==> Present in values && Absent in values
    ensures |values| <= 1 ==> values == {} || values == {Present} || values == {Absent}
  {
    assert values == {} || values == {Present} || values == {Absent} || values == {Present, Absent} by {
      forall v | v in values ensures v in {Present, Absent} {
        assert v.Present? || v.Absent? || v.UnknownValue?;
      }
    }
  }

  // ---------- the whole ----------

  /** What the classes of the qualified claims say is what the specification asks of the input. */
  lemma SaidIsClaimed(input: Input, qualified: seq<QualifiedClaim>, class_: string, value: ClaimValue)
    requires forall q :: q in qualified <==> q.claim in input.claims && Qualifies(input, q.claim, q.class_)
    ensures SaidUnder(qualified, class_, value) <==> Claims(input, class_, value)
  {
    if SaidUnder(qualified, class_, value) {
      var q :| q in qualified && q.class_ == class_ && q.claim.value == value;
      assert q.claim in input.claims;
    }
    if Claims(input, class_, value) {
      var claim :| claim in input.claims && claim.value == value && Qualifies(input, claim, class_);
      assert QualifiedClaim(claim, class_) in qualified;
    }
  }

  method WeighClaims(input: Input, qualified: seq<QualifiedClaim>) returns (supporting: seq<string>, contradicting: seq<string>, disagreed: bool)
    requires forall q :: q in qualified <==> q.claim in input.claims && Qualifies(input, q.claim, q.class_)
    ensures Distinct(supporting) && forall c :: c in supporting <==> c in Supporting(input)
    ensures Distinct(contradicting) && forall c :: c in contradicting <==> c in Contradicting(input)
    ensures disagreed <==> SomeClassDisagrees(input)
  {
    var values, order := GroupValues(qualified);
    forall c, v ensures Grouped(values, c, v) <==> Claims(input, c, v) {
      SaidIsClaimed(input, qualified, c, v);
    }
    forall c | Claims(input, c, Present) || Claims(input, c, Absent) ensures c in AllClasses(input) {
      if Claims(input, c, Present) {
        ClaimedClassIsLeased(input, c, Present);
      } else {
        ClaimedClassIsLeased(input, c, Absent);
      }
    }
    supporting, contradicting, disagreed := Weigh(values, order);
    forall c | c in values
      ensures values[c] - {UnknownValue} == {Present} <==> Supports(input, c)
      ensures values[c] - {UnknownValue} == {Absent} <==> Contradicts(input, c)
    {
      OneMaterialValue(values[c]);
    }
  }

  lemma OneMaterialValue(values: set<ClaimValue>)
    ensures values - {UnknownValue} == {Present} <==> Present in values && Absent !in values
    ensures values - {UnknownValue} == {Absent} <==> Absent in values && Present !in values
  {
    forall v | v in values - {UnknownValue} ensures v in {Present, Absent} {
      assert v.Present? || v.Absent? || v.UnknownValue?;
    }
    if values - {UnknownValue} == {Present} {
      assert Present in values - {UnknownValue} && Absent !in values - {UnknownValue};
    }
    if values - {UnknownValue} == {Absent} {
      assert Absent in values - {UnknownValue} && Present !in values - {UnknownValue};
    }
    if Present in values && Absent !in values {
      assert values - {UnknownValue} == {Present};
    }
    if Absent in values && Present !in values {
      assert values - {UnknownValue} == {Absent};
    }
  }

  /** Sort the two lists of classes and decide. */
  method Conclude(input: Input, supporting: seq<string>, contradicting: seq<string>)
      returns (supporting': seq<string>, contradicting': seq<string>, decision: Decision)
    requires Distinct(supporting) && forall c :: c in supporting <==> c in Supporting(input)
    requires Distinct(contradicting) && forall c :: c in contradicting <==> c in Contradicting(input)
    ensures supporting' == SortedSeq(Supporting(input)) && contradicting' == SortedSeq(Contradicting(input))
    ensures decision == DecisionOf(input)
  {
    SortGivesSortedSeq(supporting, Supporting(input));
    SortGivesSortedSeq(contradicting, Contradicting(input));
    supporting', contradicting' := Sort(supporting, Leq), Sort(contradicting, Leq);
    if |supporting'| > 0 && |contradicting'| > 0 {
      decision := Contradicted;
    } else if |supporting'| >= input.minimum {
      decision := Corroborated;
    } else {
      decision := InsufficientIndependence;
    }
  }

  function ReasonsOf(decision: Decision, duplicates: bool, disagreed: bool): set<Reason> {
    (if duplicates then {DuplicateObservationId} else {})
    + (if disagreed then {IntraClassContradiction} else {})
    + (match decision
       case Contradicted => {MaterialContradiction}
       case Corroborated => {}
       case InsufficientIndependence => {InsufficientIndependentEvidence})
  }

  method AssessEvidenceClaims(input: Input) returns (r: Result<Assessment, AssessError>)
    ensures r.Success? <==> 1 <= input.minimum <= MAX_SAFE_INTEGER
    ensures r.Success? ==>
      && r.value.decision == DecisionOf(input)
      && r.value.effectiveIndependentEvidence == Effective(input)
      && r.value.rawClaimCount == |input.claims|
      && r.value.supporting == SortedSeq(Supporting(input))
      && r.value.contradicting == SortedSeq(Contradicting(input))
      && forall reason :: reason in r.value.reasons <==> GivesReason(input, reason)
  {
    if input.minimum < 1 || input.minimum > MAX_SAFE_INTEGER {
      return Failure(InvalidMinimum);
    }
    var found, duplicates := IndexObservations(input.observations);
    var byObservation, leaseReasons := IndexLeases(input);
    var qualified, claimReasons := QualifyClaims(input, found, byObservation);
    var supporting, contradicting, disagreed := WeighClaims(input, qualified);
    var decision;
    supporting, contradicting, decision := Conclude(input, supporting, contradicting);
    var reasons := leaseReasons + claimReasons + ReasonsOf(decision, duplicates, disagreed);
    AllReasons(input, leaseReasons, claimReasons, duplicates, disagreed);
    SupportingAndContradictingAreDisjoint(input);
    return Success(Assessment(decision, |supporting| + |contradicting|, |input.claims|, supporting, contradicting, reasons));
  }

  predicate ConcernsClaim(reason: Reason) {
    match reason
    case DuplicateObservationId => false
    case InvalidOrExpiredLease => false
    case LeaseContextMismatch => false
    case IntraClassContradiction => false
    case MaterialContradiction => false
    case InsufficientIndependentEvidence => false
    case _ => true
  }

  lemma RejectionsConcernClaims(input: Input, claim: Claim)
    ensures Rejection(input, claim).Some? ==> ConcernsClaim(Rejection(input, claim).value)
  {
  }

  lemma AllReasons(input: Input, leaseReasons: set<Reason>, claimReasons: set<Reason>, duplicates: bool, disagreed: bool)
    requires forall reason :: reason in leaseReasons <==> (reason == InvalidOrExpiredLease || reason == LeaseContextMismatch) && GivesReason(input, reason)
    requires forall reason :: reason in claimReasons <==> SomeClaimRejected(input, reason)
    requires duplicates <==> !IdsDistinct(input.observations)
    requires disagreed <==> SomeClassDisagrees(input)
    ensures forall reason :: reason in leaseReasons + claimReasons + ReasonsOf(DecisionOf(input), duplicates, disagreed) <==> GivesReason(input, reason)
  {
    forall reason | reason in claimReasons ensures ConcernsClaim(reason) {
      var claim :| claim in input.claims && Rejection(input, claim) == Some(reason);
      RejectionsConcernClaims(input, claim);
    }
    forall reason ensures reason in leaseReasons + claimReasons + ReasonsOf(DecisionOf(input), duplicates, disagreed) <==> GivesReason(input, reason) {
      if ConcernsClaim(reason) {
        NotOfClaims(reason, DecisionOf(input), duplicates, disagreed);
        assert GivesReason(input, reason) <==> SomeClaimRejected(input, reason);
      } else if reason == InvalidOrExpiredLease || reason == LeaseContextMismatch {
        NotOfLeases(reason, DecisionOf(input), duplicates, disagreed);
      } else {
        TheRest(input, reason);
      }
    }
  }

  lemma NotOfClaims(reason: Reason, decision: Decision, duplicates: bool, disagreed: bool)
    requires ConcernsClaim(reason)
    ensures reason !in ReasonsOf(decision, duplicates, disagreed)
  {
  }

  lemma NotOfLeases(reason: Reason, decision: Decision, duplicates: bool, disagreed: bool)
    requires reason == InvalidOrExpiredLease || reason == LeaseContextMismatch
    ensures reason !in ReasonsOf(decision, duplicates, disagreed)
  {
  }

  lemma TheRest(input: Input, reason: Reason)
    requires !ConcernsClaim(reason) && reason != InvalidOrExpiredLease && reason != LeaseContextMismatch
    ensures GivesReason(input, reason) <==> reason in ReasonsOf(DecisionOf(input), !IdsDistinct(input.observations), SomeClassDisagrees(input))
  {
    ReasonsAre(DecisionOf(input), !IdsDistinct(input.observations), SomeClassDisagrees(input), reason);
  }

  lemma ReasonsAre(decision: Decision, duplicates: bool, disagreed: bool, reason: Reason)
    ensures reason in ReasonsOf(decision, duplicates, disagreed) <==>
      || (duplicates && reason == DuplicateObservationId) || (disagreed && reason == IntraClassContradiction)
      || (decision == Contradicted && reason == MaterialContradiction)
      || (decision == InsufficientIndependence && reason == InsufficientIndependentEvidence)
  {
  }
}
