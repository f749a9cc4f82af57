/** What the Cognitive Road State says about a set of observations and assurance results. */
module CognitiveState {
  import opened Integers
  import opened Wrappers
  import opened Sequences
  import opened StableSort
  import opened TextOrder
  import opened Perception

  datatype AssuranceDecision = Corroborated | InsufficientIndependence | Contradicted | Abstain

  datatype Assurance = Assurance(objectBinding: string, decision: AssuranceDecision, authorityIsNone: bool)

  datatype Input = Input(
    crsId: string, zoneId: string, stateTime: Timestamp, validUntil: Timestamp, now: int,
    observations: seq<Observation>, assurance: seq<Assurance>)

  datatype BuildError =
    | MissingCrsId | MissingZoneId | InvalidWindow | TimeFromFuture
    | DuplicateObservationId | AuthorityImport | DuplicateBinding | MissingTrackId | InvalidTrackConfidence

  datatype Candidate = Candidate(envelope: Observation, track: Track)

  datatype EpistemicState = Known | Uncertain | InContradiction | Unknown

  datatype EntityClass = Vehicle | Pedestrian | Cyclist | Livestock | Debris | StaticObstacle | EmergencyVehicle | UnknownClass

  datatype Entity = Entity(
    entityId: string, entityClass: EntityClass, kinematics: string, laneId: Option<string>, roadSegmentId: Option<string>,
    supporting: seq<string>, contradicting: seq<string>, confidence: real, epistemicState: EpistemicState, validUntil: int)

  datatype ContradictionReason = DivergentSameSource | MaterialByAssurance

  datatype Contradiction = Contradiction(entityId: string, observationIds: seq<string>, reason: ContradictionReason)

  datatype Summary = Summary(known: seq<string>, uncertain: seq<string>, unknown: seq<string>)

  datatype Built = Built(
    entities: seq<Entity>, contradictions: seq<Contradiction>, summary: Summary,
    evidenceIds: seq<string>, excludedIds: seq<string>, abstentionRequired: bool)

  // ---------- what is refused ----------

  function WindowError(input: Input): Option<BuildError> {
    if input.crsId == "" then Some(MissingCrsId)
    else if input.zoneId == "" then Some(MissingZoneId)
    else if input.stateTime.Parse().None? || input.validUntil.Parse().None? then Some(InvalidWindow)
    else if input.validUntil.Parse().value <= input.stateTime.Parse().value then Some(InvalidWindow)
    else if input.stateTime.Parse().value > input.now + 1_000 then Some(TimeFromFuture)
    else None
  }

  /** The first result that claims authority or repeats an object. */
  ghost function AssuranceError(results: seq<Assurance>): Option<BuildError> {
    if results == [] then None
    else
      var front, last := results[..|results| - 1], results[|results| - 1];
      var earlier := AssuranceError(front);
      if earlier.Some? then earlier
      else if !last.authorityIsNone then Some(AuthorityImport)
      else if exists r | r in front :: r.objectBinding == last.objectBinding then Some(DuplicateBinding)
      else None
  }

  function TrackFault(track: Track): Option<BuildError> {
    if track.trackId == "" then Some(MissingTrackId)
    else if track.confidence.None? || !(0.0 <= track.confidence.value <= 1.0) then Some(InvalidTrackConfidence)
    else None
  }

  function TracksError(tracks: seq<Track>): Option<BuildError> {
    if tracks == [] then None
    else
      var earlier := TracksError(tracks[..|tracks| - 1]);
      if earlier.Some? then earlier else TrackFault(tracks[|tracks| - 1])
  }

  function TracksOf(o: Observation): seq<Track> {
    if o.payload.TrackSet? then o.payload.tracks else []
  }

  function AdmittedError(admitted: seq<Observation>): Option<BuildError> {
    if admitted == [] then None
    else
      var earlier := AdmittedError(admitted[..|admitted| - 1]);
      if earlier.Some? then earlier else TracksError(TracksOf(admitted[|admitted| - 1]))
  }

  // ---------- candidates ----------

  function UsableAt(now: int): Observation -> bool {
    (o: Observation) => Usable(o, now)
  }

  function UnusableAt(now: int): Observation -> bool {
    (o: Observation) => !Usable(o, now)
  }

  function Admitted(input: Input): seq<Observation> {
    Filter(input.observations, UsableAt(input.now))
  }

  function Excluded(input: Input): seq<Observation> {
    Filter(input.observations, UnusableAt(input.now))
  }

  function Ids(observations: seq<Observation>): set<string> {
    set o | o in observations :: o.observationId
  }

  function TrackIds(admitted: seq<Observation>): set<string> {
    set o, track | o in admitted && track in TracksOf(o) :: track.trackId
  }

  function TracksNamed(envelope: Observation, tracks: seq<Track>, trackId: string): seq<Candidate> {
    if tracks == [] then []
    else
      var front := TracksNamed(envelope, tracks[..|tracks| - 1], trackId);
      if tracks[|tracks| - 1].trackId == trackId then front + [Candidate(envelope, tracks[|tracks| - 1])] else front
  }

  function CandidatesIn(envelope: Observation, trackId: string): seq<Candidate> {
    TracksNamed(envelope, TracksOf(envelope), trackId)
  }

  function CandidatesFor(admitted: seq<Observation>, trackId: string): seq<Candidate> {
    if admitted == [] then []
    else CandidatesFor(admitted[..|admitted| - 1], trackId) + CandidatesIn(admitted[|admitted| - 1], trackId)
  }

  // ---------- the newest candidate ----------

  function Instant(c: Candidate): int {
    if c.envelope.capturedAt.Parse().Some? then c.envelope.capturedAt.Parse().value else 0
  }

  /** The comparator: later capture first, then source, then observation id. */
  predicate NewestFirst(a: Candidate, b: Candidate) {
    || Instant(a) > Instant(b)
    || (Instant(a) == Instant(b) &&
        if a.envelope.sourceId != b.envelope.sourceId then Leq(a.envelope.sourceId, b.envelope.sourceId)
        else Leq(a.envelope.observationId, b.envelope.observationId))
  }

  function Newest(candidates: seq<Candidate>): Candidate
    requires candidates != []
  {
    SortPermutes(candidates, NewestFirst);
    Sort(candidates, NewestFirst)[0]
  }

  // ---------- contradictions ----------

  /** What digestTrackState digests. */
  datatype TrackState = TrackState(objectClass: string, kinematics: string, laneId: Option<string>, roadSegmentId: Option<string>)

  function StateOf(track: Track): TrackState {
    TrackState(track.objectClass, track.kinematics, track.laneId, track.roadSegmentId)
  }

  /** Same source and the same capturedAt text, different state. */
  predicate Diverge(a: Candidate, b: Candidate) {
    && a.envelope.sourceId == b.envelope.sourceId
    && a.envelope.capturedAt.text == b.envelope.capturedAt.text
    && StateOf(a.track) != StateOf(b.track)
  }

  predicate HasDivergence(candidates: seq<Candidate>, a: Candidate) {
    exists b | b in candidates :: Diverge(a, b)
  }

  function DivergentIds(candidates: seq<Candidate>): set<string> {
    set a | a in candidates && HasDivergence(candidates, a) :: a.envelope.observationId
  }

  // ---------- entities ----------

  function EnvelopeIds(candidates: seq<Candidate>): set<string> {
    set c | c in candidates :: c.envelope.observationId
  }

  function NestedIds(candidates: seq<Candidate>): set<string> {
    set c, id | c in candidates && id in c.track.supportingObservationIds :: id
  }

  function Assured(results: seq<Assurance>, trackId: string): Option<AssuranceDecision> {
    if results == [] then None
    else
      var last := results[|results| - 1];
      if last.objectBinding == trackId then Some(last.decision) else Assured(results[..|results| - 1], trackId)
  }

  function Epistemic(divergent: bool, assured: Option<AssuranceDecision>): EpistemicState {
    if divergent || assured == Some(Contradicted) then InContradiction
    else if assured == Some(Corroborated) then Known
    else if assured.None? then Unknown
    else Uncertain
  }

  /** The supported class names are compared in upper case; case folding is outside the model. */
  function MapEntityClass(objectClass: string): EntityClass {
    if objectClass == "VEHICLE" then Vehicle
    else if objectClass == "PEDESTRIAN" then Pedestrian
    else if objectClass == "CYCLIST" then Cyclist
    else if objectClass == "LIVESTOCK" then Livestock
    else if objectClass == "DEBRIS" then Debris
    else if objectClass == "STATIC_OBSTACLE" then StaticObstacle
    else if objectClass == "EMERGENCY_VEHICLE" then EmergencyVehicle
    else UnknownClass
  }

  function EntityValidUntil(candidates: seq<Candidate>, limit: int): int {
    if candidates == [] then limit
    else
      var last := candidates[|candidates| - 1];
      Min(EntityValidUntil(candidates[..|candidates| - 1], limit), Instant(last) + last.envelope.freshnessTtlMs)
  }

  function ConfidenceOf(newest: Track, state: EpistemicState): real {
    var confidence := if newest.confidence.Some? then newest.confidence.value else 0.0;
    if state == InContradiction && confidence > 0.5 then 0.5 else confidence
  }

  /** The observations an entity names as contradicting. */
  function ContradictingIds(candidates: seq<Candidate>, assured: Option<AssuranceDecision>): set<string> {
    if DivergentIds(candidates) != {} then DivergentIds(candidates) else if assured == Some(Contradicted) then EnvelopeIds(candidates) else {}
  }

  /** The observations the state's list of contradictions names for a track. */
  function RecordedIds(candidates: seq<Candidate>, assured: Option<AssuranceDecision>): set<string> {
    if assured == Some(Contradicted) then EnvelopeIds(candidates) else DivergentIds(candidates)
  }

  ghost function EntityFor(trackId: string, candidates: seq<Candidate>, assured: Option<AssuranceDecision>, limit: int): Entity
    requires candidates != []
  {
    var newest := Newest(candidates).track;
    var divergent := DivergentIds(candidates);
    var state := Epistemic(divergent != {}, assured);
    Entity(
      trackId, MapEntityClass(newest.objectClass), newest.kinematics, newest.laneId, newest.roadSegmentId,
      SortedSeq(EnvelopeIds(candidates) + NestedIds(candidates)),
      SortedSeq(ContradictingIds(candidates, assured)),
      ConfidenceOf(newest, state), state, EntityValidUntil(candidates, limit))
  }

  /** At most one contradiction is recorded for a track. */
  ghost function ContradictionsFor(trackId: string, candidates: seq<Candidate>, assured: Option<AssuranceDecision>): seq<Contradiction> {
    var divergent := DivergentIds(candidates);
    if divergent == {} && assured != Some(Contradicted) then []
    else [Contradiction(trackId,
                        SortedSeq(RecordedIds(candidates, assured)),
                        if divergent != {} then DivergentSameSource else MaterialByAssurance)]
  }

  ghost function EntityMaker(admitted: seq<Observation>, assurance: seq<Assurance>, limit: int): string --> Entity {
    (id: string) requires CandidatesFor(admitted, id) != [] => EntityFor(id, CandidatesFor(admitted, id), Assured(assurance, id), limit)
  }

  ghost function ContradictionMaker(admitted: seq<Observation>, assurance: seq<Assurance>): string -> seq<Contradiction> {
    (id: string) => ContradictionsFor(id, CandidatesFor(admitted, id), Assured(assurance, id))
  }

  function EntityIdsIn(entities: seq<Entity>, states: set<EpistemicState>): set<string> {
    set e | e in entities && e.epistemicState in states :: e.entityId
  }

  ghost function SummaryOf(entities: seq<Entity>): Summary {
    Summary(SortedSeq(EntityIdsIn(entities, {Known})), SortedSeq(EntityIdsIn(entities, {Uncertain, InContradiction})), SortedSeq(EntityIdsIn(entities, {Unknown})))
  }

  predicate RequiresAbstention(entities: seq<Entity>, contradictions: seq<Contradiction>) {
    contradictions != [] || exists e | e in entities :: e.epistemicState == InContradiction
  }

  ghost function Build(input: Input): Result<Built, BuildError> {
    if WindowError(input).Some? then Failure(WindowError(input).value)
    else if !IdsDistinct(input.observations) then Failure(DuplicateObservationId)
    else if AssuranceError(input.assurance).Some? then Failure(AssuranceError(input.assurance).value)
    else if AdmittedError(Admitted(input)).Some? then Failure(AdmittedError(Admitted(input)).value)
    else Success(BuiltFrom(input))
  }

  ghost function BuiltFrom(input: Input): Built
    requires WindowError(input).None?
  {
    var admitted := Admitted(input);
    var trackIds := SortedSeq(TrackIds(admitted));
    EveryTrackHasCandidates(admitted);
    assert forall id | id in trackIds :: CandidatesFor(admitted, id) != [];
    var entities := MapSeq(trackIds, EntityMaker(admitted, input.assurance, input.validUntil.Parse().value));
    var contradictions := FlatMap(trackIds, ContradictionMaker(admitted, input.assurance));
    Built(entities, contradictions, SummaryOf(entities), SortedSeq(Ids(admitted)), SortedSeq(Ids(Excluded(input))), RequiresAbstention(entities, contradictions))
  }

  // ---------- membership ----------

  lemma {:induction false} TracksNamedMembers(envelope: Observation, tracks: seq<Track>, trackId: string)
    ensures forall c :: c in TracksNamed(envelope, tracks, trackId) <==> c.envelope == envelope && c.track in tracks && c.track.trackId == trackId
  {
    if tracks != [] {
      var front, last := tracks[..|tracks| - 1], tracks[|tracks| - 1];
      TracksNamedMembers(envelope, front, trackId);
      assert tracks == front + [last];
      assert forall track :: track in tracks <==> track in front || track == last;
    }
  }

  lemma {:induction false} CandidateMembers(admitted: seq<Observation>, trackId: string)
    ensures forall c :: c in CandidatesFor(admitted, trackId) <==> c.envelope in admitted && c.track in TracksOf(c.envelope) && c.track.trackId == trackId
  {
    if admitted != [] {
      var front, last := admitted[..|admitted| - 1], admitted[|admitted| - 1];
      CandidateMembers(front, trackId);
      TracksNamedMembers(last, TracksOf(last), trackId);
      assert admitted == front + [last];
      assert forall o :: o in admitted <==> o in front || o == last;
    }
  }

  lemma EveryTrackHasCandidates(admitted: seq<Observation>)
    ensures forall id | id in TrackIds(admitted) :: CandidatesFor(admitted, id) != []
  {
    forall id | id in TrackIds(admitted) ensures CandidatesFor(admitted, id) != [] {
      var o, track :| o in admitted && track in TracksOf(o) && track.trackId == id;
      CandidateMembers(admitted, id);
      assert Candidate(o, track) in CandidatesFor(admitted, id);
    }
  }
}
