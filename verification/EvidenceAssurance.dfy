/** Evidence assurance by independence class: what assessEvidenceClaims decides, stated over sets,
    and how little one class can do to it. */
module EvidenceAssurance {
  import opened Wrappers
  import opened SetBasics
  import opened StableSort
  import opened Perception

  datatype LeaseContext = LeaseContext(purpose: string, jurisdiction: string, eventEpoch: string, roadStateDigest: string, objectBinding: string)

  datatype Lease = Lease(
    wellFormed: bool, classDigest: string, observationIds: seq<string>, context: LeaseContext, issuedAt: Timestamp, expiresAt: Timestamp)

  datatype ClaimValue = Present | Absent | UnknownValue

  /** `confidence` is None when it is not a finite number. */
  datatype Claim = Claim(claimId: string, observationId: string, objectBinding: string, claimType: string, value: ClaimValue, confidence: Option<real>)

  datatype Input = Input(
    now: int, context: LeaseContext, claimType: string, minimum: int,
    observations: seq<Observation>, leases: seq<Lease>, claims: seq<Claim>)

  datatype Decision = Corroborated | InsufficientIndependence | Contradicted

  datatype Reason =
    | DuplicateObservationId | InvalidOrExpiredLease | LeaseContextMismatch
    | ClaimContextMismatch | InvalidClaimConfidence | ClaimObservationNotFound | ObservationNotUsable(disposition: Disposition)
    | NoIndependenceLease | AmbiguousIndependenceBinding
    | IntraClassContradiction | MaterialContradiction | InsufficientIndependentEvidence

  datatype Assessment = Assessment(
    decision: Decision, effectiveIndependentEvidence: nat, rawClaimCount: nat,
    supporting: seq<string>, contradicting: seq<string>, reasons: set<Reason>)

  // ---------- leases ----------

  predicate ValidLease(lease: Lease, now: int) {
    && lease.wellFormed && lease.observationIds != []
    && lease.issuedAt.Parse().Some? && lease.expiresAt.Parse().Some?
    && lease.issuedAt.Parse().value <= now + 1_000
    && lease.expiresAt.Parse().value > now
    && lease.expiresAt.Parse().value > lease.issuedAt.Parse().value
  }

  predicate Applies(input: Input, lease: Lease) {
    ValidLease(lease, input.now) && lease.context == input.context
  }

  /** The independence classes to which leases in force bind an observation. */
  function Classes(input: Input, observationId: string): set<string> {
    set lease | lease in input.leases && Applies(input, lease) && observationId in lease.observationIds :: lease.classDigest
  }

  // ---------- observations ----------

  /** The first envelope with this id; later duplicates are ignored. */
  function Find(observations: seq<Observation>, observationId: string): Option<Observation> {
    if observations == [] then None
    else
      var earlier := Find(observations[..|observations| - 1], observationId);
      var last := observations[|observations| - 1];
      if earlier.None? && last.observationId == observationId then Some(last) else earlier
  }

  // ---------- claims ----------

  /** Why a claim is set aside, None when it qualifies. */
  function Rejection(input: Input, claim: Claim): Option<Reason> {
    if claim.objectBinding != input.context.objectBinding || claim.claimType != input.claimType then Some(ClaimContextMismatch)
    else if claim.confidence.None? || !(0.0 <= claim.confidence.value <= 1.0) then Some(InvalidClaimConfidence)
    else
      var found := Find(input.observations, claim.observationId);
      if found.None? then Some(ClaimObservationNotFound)
      else if !Usable(found.value, input.now) then Some(ObservationNotUsable(Admission(found.value, input.now)))
      else
        var classes := Classes(input, claim.observationId);
        if classes == {} then Some(NoIndependenceLease)
        else if |classes| != 1 then Some(AmbiguousIndependenceBinding)
        else None
  }

  predicate Qualifies(input: Input, claim: Claim, class_: string) {
    Rejection(input, claim).None? && Classes(input, claim.observationId) == {class_}
  }

  /** Some claim with this value qualifies under the class. */
  predicate Claims(input: Input, class_: string, value: ClaimValue) {
    exists claim | claim in input.claims :: claim.value == value && Qualifies(input, claim, class_)
  }

  predicate Supports(input: Input, class_: string) {
    Claims(input, class_, Present) && !Claims(input, class_, Absent)
  }

  predicate Contradicts(input: Input, class_: string) {
    Claims(input, class_, Absent) && !Claims(input, class_, Present)
  }

  predicate DisagreesWithItself(input: Input, class_: string) {
    Claims(input, class_, Absent) && Claims(input, class_, Present)
  }

  function AllClasses(input: Input): set<string> {
    set lease | lease in input.leases :: lease.classDigest
  }

  function Supporting(input: Input): set<string> {
    set c | c in AllClasses(input) && Supports(input, c)
  }

  function Contradicting(input: Input): set<string> {
    set c | c in AllClasses(input) && Contradicts(input, c)
  }

  function Effective(input: Input): nat {
    |Supporting(input) + Contradicting(input)|
  }

  function Decide(supporting: nat, contradicting: nat, minimum: int): Decision {
    if supporting > 0 && contradicting > 0 then Contradicted
    else if supporting >= minimum then Corroborated
    else InsufficientIndependence
  }

  function DecisionOf(input: Input): Decision {
    Decide(|Supporting(input)|, |Contradicting(input)|, input.minimum)
  }

  // ---------- reasons ----------

  predicate SomeLeaseInvalid(input: Input) {
    exists lease | lease in input.leases :: !ValidLease(lease, input.now)
  }

  predicate SomeLeaseMisplaced(input: Input) {
    exists lease | lease in input.leases :: ValidLease(lease, input.now) && lease.context != input.context
  }

  predicate SomeClassDisagrees(input: Input) {
    exists c | c in AllClasses(input) :: DisagreesWithItself(input, c)
  }

  predicate SomeClaimRejected(input: Input, reason: Reason) {
    exists claim | claim in input.claims :: Rejection(input, claim) == Some(reason)
  }

  predicate GivesReason(input: Input, reason: Reason) {
    match reason
    case DuplicateObservationId => !IdsDistinct(input.observations)
    case InvalidOrExpiredLease => SomeLeaseInvalid(input)
    case LeaseContextMismatch => SomeLeaseMisplaced(input)
    case IntraClassContradiction => SomeClassDisagrees(input)
    case MaterialContradiction => DecisionOf(input) == Contradicted
    case InsufficientIndependentEvidence => DecisionOf(input) == InsufficientIndependence
    case _ => SomeClaimRejected(input, reason)
  }

  /** A qualifying claim's class is one some lease names. */
  lemma QualifyingClassIsLeased(input: Input, claim: Claim, class_: string)
    requires Qualifies(input, claim, class_)
    ensures class_ in AllClasses(input)
  {
    assert class_ in Classes(input, claim.observationId);
  }

  lemma ClaimedClassIsLeased(input: Input, class_: string, value: ClaimValue)
    requires Claims(input, class_, value)
    ensures class_ in AllClasses(input)
  {
    var claim :| claim in input.claims && claim.value == value && Qualifies(input, claim, class_);
    QualifyingClassIsLeased(input, claim, class_);
  }

  // ---------- Sybil bounds ----------

  /** The classes under which some of these claims qualify. */
  function ClassesOf(input: Input, extra: seq<Claim>): set<string> {
    set c | c in AllClasses(input) && exists claim | claim in extra :: Qualifies(input, claim, c)
  }

  function Adding(input: Input, extra: seq<Claim>): Input {
    input.(claims := input.claims + extra)
  }

  lemma AddingKeepsQualification(input: Input, extra: seq<Claim>, claim: Claim, class_: string)
    ensures Qualifies(Adding(input, extra), claim, class_) <==> Qualifies(input, claim, class_)
  {
    assert Classes(Adding(input, extra), claim.observationId) == Classes(input, claim.observationId);
  }

  lemma OtherClassesUnmoved(input: Input, extra: seq<Claim>, class_: string, value: ClaimValue)
    requires class_ !in ClassesOf(input, extra)
    ensures Claims(Adding(input, extra), class_, value) <==> Claims(input, class_, value)
  {
    var more := Adding(input, extra);
    if Claims(more, class_, value) {
      ClaimedClassIsLeased(more, class_, value);
      var claim :| claim in more.claims && claim.value == value && Qualifies(more, claim, class_);
      AddingKeepsQualification(input, extra, claim, class_);
      assert AllClasses(more) == AllClasses(input);
      assert claim !in extra;
    }
    if Claims(input, class_, value) {
      var claim :| claim in input.claims && claim.value == value && Qualifies(input, claim, class_);
      AddingKeepsQualification(input, extra, claim, class_);
      assert claim in more.claims;
    }
  }

  lemma SizeWithin<T>(a: set<T>, b: set<T>, slack: set<T>)
    requires a <= b + slack
    ensures |a| <= |b| + |slack|
  {
    SubsetSize(a, b + slack);
    assert |b + slack| <= |b| + |slack| by {
      assert b + slack == b + (slack - b);
      SubsetSize(slack - b, slack);
    }
  }

  lemma OnlyTheirClassesMove(input: Input, extra: seq<Claim>)
    ensures Supporting(Adding(input, extra)) <= Supporting(input) + ClassesOf(input, extra)
    ensures Supporting(input) <= Supporting(Adding(input, extra)) + ClassesOf(input, extra)
    ensures Contradicting(Adding(input, extra)) <= Contradicting(input) + ClassesOf(input, extra)
    ensures Contradicting(input) <= Contradicting(Adding(input, extra)) + ClassesOf(input, extra)
  {
    assert AllClasses(Adding(input, extra)) == AllClasses(input);
    forall c | c in AllClasses(input) && c !in ClassesOf(input, extra)
      ensures Supports(Adding(input, extra), c) <==> Supports(input, c)
      ensures Contradicts(Adding(input, extra), c) <==> Contradicts(input, c)
    {
      OtherClassesUnmoved(input, extra, c, Present);
      OtherClassesUnmoved(input, extra, c, Absent);
    }
  }

  lemma SizesWithin<T>(s0: set<T>, c0: set<T>, s1: set<T>, c1: set<T>, moved: set<T>)
    requires s1 <= s0 + moved && s0 <= s1 + moved && c1 <= c0 + moved && c0 <= c1 + moved
    ensures |s1 + c1| <= |s0 + c0| + |moved| && |s0 + c0| <= |s1 + c1| + |moved| && |s1| <= |s0| + |moved|
  {
    SizeWithin(s1 + c1, s0 + c0, moved);
    SizeWithin(s0 + c0, s1 + c1, moved);
    SizeWithin(s1, s0, moved);
  }

  /** However many claims are added, the independent evidence moves by at most the number of classes
      under which they qualify: claims of one class, by at most one. */
  lemma SybilBound(input: Input, extra: seq<Claim>)
    ensures Effective(Adding(input, extra)) <= Effective(input) + |ClassesOf(input, extra)|
    ensures Effective(input) <= Effective(Adding(input, extra)) + |ClassesOf(input, extra)|
    ensures |Supporting(Adding(input, extra))| <= |Supporting(input)| + |ClassesOf(input, extra)|
  {
    OnlyTheirClassesMove(input, extra);
    SizesWithin(Supporting(input), Contradicting(input), Supporting(Adding(input, extra)), Contradicting(Adding(input, extra)), ClassesOf(input, extra));
  }

  /** Claims of k classes cannot corroborate what lacks more than k independent supporters. */
  lemma FewClassesCannotCorroborate(input: Input, extra: seq<Claim>)
    requires |Supporting(input)| + |ClassesOf(input, extra)| < input.minimum
    ensures DecisionOf(Adding(input, extra)) != Corroborated
  {
    SybilBound(input, extra);
  }

  lemma SupportingAndContradictingAreDisjoint(input: Input)
    ensures Supporting(input) !! Contradicting(input)
    ensures Effective(input) == |Supporting(input)| + |Contradicting(input)|
  {
  }

  // ---------- order does not matter ----------

  lemma {:induction false} FindMeans(observations: seq<Observation>, id: string)
    requires IdsDistinct(observations)
    ensures forall o :: Find(observations, id) == Some(o) <==> o in observations && o.observationId == id
  {
    if observations != [] {
      var front, last := observations[..|observations| - 1], observations[|observations| - 1];
      forall i, j | 0 <= i < j < |front| ensures front[i].observationId != front[j].observationId {
        assert front[i] == observations[i] && front[j] == observations[j];
      }
      FindMeans(front, id);
      assert observations == front + [last];
      forall o | o in front ensures o.observationId != last.observationId {
        var i :| 0 <= i < |front| && front[i] == o;
        assert observations[i].observationId != observations[|front|].observationId;
      }
    }
  }

  /** The same observations with their ids distinct, in any order, or the very same list. */
  ghost predicate SameObservations(a: Input, b: Input) {
    || a.observations == b.observations
    || (multiset(a.observations) == multiset(b.observations) && IdsDistinct(a.observations) && IdsDistinct(b.observations))
  }

  lemma FindsTheSame(a: Input, b: Input, id: string)
    requires SameObservations(a, b)
    ensures Find(a.observations, id) == Find(b.observations, id)
  {
    if a.observations != b.observations {
      SameMembers(a.observations, b.observations);
      FindMeans(a.observations, id);
      FindMeans(b.observations, id);
      if Find(a.observations, id).Some? {
        assert Find(a.observations, id) == Some(Find(a.observations, id).value);
      }
      if Find(b.observations, id).Some? {
        assert Find(b.observations, id) == Some(Find(b.observations, id).value);
      }
    }
  }

  /** Permuting observations with distinct ids leaves their ids distinct. */
  lemma PermutedIdsDistinct(a: seq<Observation>, b: seq<Observation>)
    requires multiset(a) == multiset(b) && IdsDistinct(a)
    ensures IdsDistinct(b)
  {
    forall i, j | 0 <= i < j < |a| ensures a[i] != a[j] {
      assert a[i].observationId != a[j].observationId;
    }
    DistinctPermuted(a, b);
    SameMembers(a, b);
    forall i, j | 0 <= i < j < |b| ensures b[i].observationId != b[j].observationId {
      assert b[i] in a && b[j] in a && b[i] != b[j];
      var k :| 0 <= k < |a| && a[k] == b[i];
      var l :| 0 <= l < |a| && a[l] == b[j];
      assert k < l || l < k;
    }
  }

  /** b has the same context, claims and leases, and its observations are found alike. */
  ghost predicate SameEvidence(a: Input, b: Input) {
    && b == a.(claims := b.claims, leases := b.leases, observations := b.observations)
    && (forall claim :: claim in a.claims <==> claim in b.claims)
    && (forall lease :: lease in a.leases <==> lease in b.leases)
    && SameObservations(a, b)
  }

  lemma SameRejection(a: Input, b: Input, claim: Claim)
    requires SameEvidence(a, b)
    ensures Rejection(a, claim) == Rejection(b, claim) && Classes(a, claim.observationId) == Classes(b, claim.observationId)
  {
    assert Classes(a, claim.observationId) == Classes(b, claim.observationId);
    FindsTheSame(a, b, claim.observationId);
  }

  lemma SameDecision(a: Input, b: Input)
    requires SameEvidence(a, b)
    ensures Supporting(a) == Supporting(b) && Contradicting(a) == Contradicting(b) && DecisionOf(a) == DecisionOf(b)
    ensures SomeClassDisagrees(a) <==> SomeClassDisagrees(b)
  {
    assert AllClasses(a) == AllClasses(b);
    forall claim ensures Rejection(a, claim) == Rejection(b, claim) && Classes(a, claim.observationId) == Classes(b, claim.observationId) {
      SameRejection(a, b, claim);
    }
    forall c, value ensures Claims(a, c, value) <==> Claims(b, c, value) {
      SameClaims(a, b, c, value);
      SameClaims(b, a, c, value);
    }
    assert Supporting(a) == Supporting(b) && Contradicting(a) == Contradicting(b);
  }

  lemma SameRejected(a: Input, b: Input, reason: Reason)
    requires SameEvidence(a, b) && SomeClaimRejected(a, reason)
    ensures SomeClaimRejected(b, reason)
  {
    var claim :| claim in a.claims && Rejection(a, claim) == Some(reason);
    SameRejection(a, b, claim);
    assert claim in b.claims;
  }

  lemma SameReason(a: Input, b: Input, reason: Reason)
    requires SameEvidence(a, b) && SameEvidence(b, a)
    ensures GivesReason(a, reason) <==> GivesReason(b, reason)
  {
    SameDecision(a, b);
    if SomeClaimRejected(a, reason) {
      SameRejected(a, b, reason);
    }
    if SomeClaimRejected(b, reason) {
      SameRejected(b, a, reason);
    }
  }

  /** Only which claims and leases there are matters, not their order or repetition; and not the order
      of the observations, when no two have one id. */
  lemma OrderDoesNotMatter(a: Input, b: Input)
    requires b == a.(claims := b.claims, leases := b.leases, observations := b.observations)
    requires forall claim :: claim in a.claims <==> claim in b.claims
    requires forall lease :: lease in a.leases <==> lease in b.leases
    requires a.observations == b.observations || (multiset(a.observations) == multiset(b.observations) && IdsDistinct(a.observations))
    ensures Supporting(a) == Supporting(b) && Contradicting(a) == Contradicting(b) && DecisionOf(a) == DecisionOf(b)
    ensures forall reason :: GivesReason(a, reason) <==> GivesReason(b, reason)
  {
    if a.observations != b.observations {
      PermutedIdsDistinct(a.observations, b.observations);
    }
    SameDecision(a, b);
    forall reason ensures GivesReason(a, reason) <==> GivesReason(b, reason) {
      SameReason(a, b, reason);
    }
  }

  lemma SameClaims(a: Input, b: Input, class_: string, value: ClaimValue)
    requires forall claim :: claim in a.claims <==> claim in b.claims
    requires forall claim :: Rejection(a, claim) == Rejection(b, claim) && Classes(a, claim.observationId) == Classes(b, claim.observationId)
    ensures Claims(a, class_, value) ==> Claims(b, class_, value)
  {
    if Claims(a, class_, value) {
      var claim :| claim in a.claims && claim.value == value && Qualifies(a, claim, class_);
      assert claim in b.claims && Qualifies(b, claim, class_);
    }
  }

  // ---------- what corroboration takes ----------

  /** The admitted observations behind qualified claims that the object is present. */
  function Witnesses(input: Input): set<string> {
    set claim | claim in input.claims && claim.value == Present && Rejection(input, claim).None? :: claim.observationId
  }

  function ClassOf(input: Input, observationId: string): string
    requires |Classes(input, observationId)| == 1
  {
    Sole(Classes(input, observationId))
  }

  lemma {:induction false} ImageSize(input: Input, observations: set<string>, classes: set<string>)
    requires forall o | o in observations :: |Classes(input, o)| == 1
    requires forall c | c in classes :: exists o | o in observations :: ClassOf(input, o) == c
    ensures |classes| <= |observations|
    decreases |observations|
  {
    if observations == {} {
      assert classes == {};
    } else {
      var o :| o in observations;
      var c := ClassOf(input, o);
      forall other | other in classes - {c} ensures exists p | p in observations - {o} :: ClassOf(input, p) == other {
        var p :| p in observations && ClassOf(input, p) == other;
        assert p in observations - {o};
      }
      ImageSize(input, observations - {o}, classes - {c});
    }
  }

  /** CORROBORATED takes at least the minimum number of independence classes, witnessed by at least
      as many different admitted observations of presence, and no class that supports absence. */
  lemma CorroborationIsEarned(input: Input)
    requires input.minimum >= 1 && DecisionOf(input) == Corroborated
    ensures |Supporting(input)| >= input.minimum && Contradicting(input) == {}
    ensures forall c | c in Supporting(input) ::
      exists claim | claim in input.claims :: claim.value == Present && Qualifies(input, claim, c) && Usable(Find(input.observations, claim.observationId).value, input.now)
    ensures |Witnesses(input)| >= input.minimum
  {
    forall o | o in Witnesses(input) ensures |Classes(input, o)| == 1 {}
    forall c | c in Supporting(input)
      ensures exists claim | claim in input.claims :: claim.value == Present && Qualifies(input, claim, c) && Usable(Find(input.observations, claim.observationId).value, input.now)
      ensures exists o | o in Witnesses(input) :: ClassOf(input, o) == c
    {
      var claim :| claim in input.claims && claim.value == Present && Qualifies(input, claim, c);
      assert claim.observationId in Witnesses(input);
      assert Classes(input, claim.observationId) == {c};
      assert ClassOf(input, claim.observationId) == c;
    }
    ImageSize(input, Witnesses(input), Supporting(input));
  }

  /** One qualified class that says absent, and does not also say present, is enough to deny
      corroboration. */
  lemma OneContradictionDenies(input: Input, class_: string)
    requires input.minimum >= 1 && Contradicts(input, class_)
    ensures DecisionOf(input) != Corroborated
  {
    ClaimedClassIsLeased(input, class_, Absent);
    assert class_ in Contradicting(input);
  }
}
