/** What the entities of a built Cognitive Road State say, told from the reports they are built from. */
module CognitiveEntities {
  import opened Wrappers
  import opened TextOrder
  import opened Perception
  import opened CognitiveState
  import opened CognitiveOrder
  import opened CognitiveMeaning

  /** An observation that may be used now reports this track. */
  ghost predicate Reports(input: Input, trackId: string, o: Observation, s: Track) {
    o in input.observations && MayBeUsed(o, input.now) && o.payload.TrackSet? && s in o.payload.tracks && s.trackId == trackId
  }

  /** This one is to be preferred: it was captured later, or at the same instant by a source with a smaller name,
      or by the same source under a smaller id. */
  ghost predicate Preferred(o: Observation, p: Observation)
    requires o.capturedAt.instant.Some? && p.capturedAt.instant.Some?
  {
    var a, b := o.capturedAt.instant.value, p.capturedAt.instant.value;
    a > b || (a == b && (Smaller(o.sourceId, p.sourceId) || (o.sourceId == p.sourceId && Smaller(o.observationId, p.observationId))))
  }

  /** The supported classes by their names; any other name is unknown. */
  ghost const CLASSES: map<string, EntityClass> := map[
    "VEHICLE" := Vehicle, "PEDESTRIAN" := Pedestrian, "CYCLIST" := Cyclist, "LIVESTOCK" := Livestock, "DEBRIS" := Debris,
    "STATIC_OBSTACLE" := StaticObstacle, "EMERGENCY_VEHICLE" := EmergencyVehicle]

  lemma ClassByName(name: string)
    ensures MapEntityClass(name) == if name in CLASSES then CLASSES[name] else UnknownClass
  {
  }

  lemma ReportsAreCandidates(input: Input, trackId: string, o: Observation, s: Track)
    ensures Reports(input, trackId, o, s) <==> Candidate(o, s) in CandidatesFor(Admitted(input), trackId)
  {
    CandidateMembers(Admitted(input), trackId);
    AdmissionMeans(o, input.now);
  }

  /** The entity that the candidates of a track make. */
  ghost function EntityAt(input: Input, trackId: string): Entity
    requires WindowError(input).None? && CandidatesFor(Admitted(input), trackId) != []
  {
    EntityFor(trackId, CandidatesFor(Admitted(input), trackId), Assured(input.assurance, trackId), input.validUntil.Parse().value)
  }

  lemma MadeAt(input: Input, trackId: string)
    requires WindowError(input).None? && trackId in TrackIds(Admitted(input))
    ensures CandidatesFor(Admitted(input), trackId) != []
    ensures EntityMaker(Admitted(input), input.assurance, input.validUntil.Parse().value)(trackId) == EntityAt(input, trackId)
  {
    EveryTrackHasCandidates(Admitted(input));
  }

  lemma EntityIsMade(input: Input, e: Entity)
    requires WindowError(input).None? && e in BuiltFrom(input).entities
    ensures CandidatesFor(Admitted(input), e.entityId) != [] && e == EntityAt(input, e.entityId)
  {
    EveryTrackHasCandidates(Admitted(input));
    var trackIds := SortedSeq(TrackIds(Admitted(input)));
    var i :| 0 <= i < |BuiltFrom(input).entities| && BuiltFrom(input).entities[i] == e;
    assert trackIds[i] in trackIds;
    MadeAt(input, trackIds[i]);
  }

  /** The fields of an entity that are those of its newest candidate. */
  ghost predicate TakenFrom(e: Entity, s: Track) {
    && e.kinematics == s.kinematics && e.laneId == s.laneId && e.roadSegmentId == s.roadSegmentId
    && e.entityClass == (if s.objectClass in CLASSES then CLASSES[s.objectClass] else UnknownClass)
    && s.confidence.Some?
    && e.confidence == if e.epistemicState == InContradiction && s.confidence.value > 0.5 then 0.5 else s.confidence.value
  }

  lemma TakesNewest(trackId: string, candidates: seq<Candidate>, assured: Option<AssuranceDecision>, limit: int)
    requires candidates != [] && TrackFault(Newest(candidates).track).None?
    ensures TakenFrom(EntityFor(trackId, candidates, assured, limit), Newest(candidates).track)
  {
    ClassByName(Newest(candidates).track.objectClass);
  }

  lemma TakesNewestAt(input: Input, trackId: string)
    requires WindowError(input).None? && AdmittedError(Admitted(input)).None? && CandidatesFor(Admitted(input), trackId) != []
    ensures TakenFrom(EntityAt(input, trackId), Newest(CandidatesFor(Admitted(input), trackId)).track)
  {
    NewestIsSound(Admitted(input), trackId);
    TakesNewest(trackId, CandidatesFor(Admitted(input), trackId), Assured(input.assurance, trackId), input.validUntil.Parse().value);
  }

  lemma NewestReport(input: Input, trackId: string)
    requires IdsDistinct(input.observations) && CandidatesFor(Admitted(input), trackId) != []
    ensures var newest := Newest(CandidatesFor(Admitted(input), trackId));
      && Reports(input, trackId, newest.envelope, newest.track)
      && forall p, t | Reports(input, trackId, p, t) :: NewestFirst(newest, Candidate(p, t))
  {
    var newest := Newest(CandidatesFor(Admitted(input), trackId));
    FilteredIdsDistinct(input.observations, UsableAt(input.now));
    NewestHeadsItsEnvelope(Admitted(input), trackId);
    ReportsAreCandidates(input, trackId, newest.envelope, newest.track);
    forall p, t | Reports(input, trackId, p, t) ensures NewestFirst(newest, Candidate(p, t)) {
      ReportsAreCandidates(input, trackId, p, t);
    }
  }

  lemma NothingPreferred(a: Candidate, b: Candidate)
    requires NewestFirst(a, b) && a.envelope.capturedAt.instant.Some? && b.envelope.capturedAt.instant.Some?
    ensures !Preferred(b.envelope, a.envelope)
  {
    if a.envelope.sourceId == b.envelope.sourceId {
      if Leq(a.envelope.observationId, b.envelope.observationId) {
        NotSmaller(a.envelope.observationId, b.envelope.observationId);
      }
    } else if Leq(a.envelope.sourceId, b.envelope.sourceId) {
      NotSmaller(a.envelope.sourceId, b.envelope.sourceId);
    }
  }

  /** Lane, segment, kinematics and class of an entity are those of one report of its track, and so is its
      confidence, cut down to one half in a contradiction; no other report of the track is to be preferred. */
  lemma EntityIsNewestReport(input: Input, e: Entity) returns (o: Observation, s: Track)
    requires Build(input).Success? && e in Build(input).value.entities
    ensures Reports(input, e.entityId, o, s) && TakenFrom(e, s)
    ensures forall p, t | Reports(input, e.entityId, p, t) :: !Preferred(p, o)
  {
    BuildSucceeds(input);
    EntityIsMade(input, e);
    TakesNewestAt(input, e.entityId);
    NewestReport(input, e.entityId);
    var newest := Newest(CandidatesFor(Admitted(input), e.entityId));
    o, s := newest.envelope, newest.track;
    forall p, t | Reports(input, e.entityId, p, t) ensures !Preferred(p, o) {
      NothingPreferred(newest, Candidate(p, t));
    }
  }

  lemma SupportingAre(candidates: seq<Candidate>)
    ensures forall id :: id in SortedSeq(EnvelopeIds(candidates) + NestedIds(candidates)) <==>
      exists c | c in candidates :: id == c.envelope.observationId || id in c.track.supportingObservationIds
  {
  }

  /** The observation reports the track or is named by one that does. */
  ghost predicate Supports(input: Input, trackId: string, id: string) {
    exists o, s :: Reports(input, trackId, o, s) && (id == o.observationId || id in s.supportingObservationIds)
  }

  /** The first of these reports goes stale then, or the road state ends then and before that. */
  ghost predicate ValidUntilFirst(input: Input, trackId: string, until: int) {
    && input.validUntil.instant.Some?
    && until <= input.validUntil.instant.value
    && (forall o, s | Reports(input, trackId, o, s) :: until <= o.capturedAt.instant.value + o.freshnessTtlMs)
    && (until == input.validUntil.instant.value
        || exists o, s :: Reports(input, trackId, o, s) && until == o.capturedAt.instant.value + o.freshnessTtlMs)
  }

  lemma SupportingAt(input: Input, trackId: string, id: string)
    ensures var candidates := CandidatesFor(Admitted(input), trackId);
      id in SortedSeq(EnvelopeIds(candidates) + NestedIds(candidates)) <==> Supports(input, trackId, id)
  {
    var candidates := CandidatesFor(Admitted(input), trackId);
    SupportingAre(candidates);
    if c :| c in candidates && (id == c.envelope.observationId || id in c.track.supportingObservationIds) {
      ReportsAreCandidates(input, trackId, c.envelope, c.track);
    }
    if o, s :| Reports(input, trackId, o, s) && (id == o.observationId || id in s.supportingObservationIds) {
      ReportsAreCandidates(input, trackId, o, s);
    }
  }

  lemma ValidUntilAt(input: Input, trackId: string)
    requires WindowError(input).None?
    ensures ValidUntilFirst(input, trackId, EntityValidUntil(CandidatesFor(Admitted(input), trackId), input.validUntil.Parse().value))
  {
    var candidates, limit := CandidatesFor(Admitted(input), trackId), input.validUntil.Parse().value;
    ValidUntilIsLeast(candidates, limit);
    var until := EntityValidUntil(candidates, limit);
    forall o, s | Reports(input, trackId, o, s) ensures until <= o.capturedAt.instant.value + o.freshnessTtlMs {
      ReportsAreCandidates(input, trackId, o, s);
      assert until <= Instant(Candidate(o, s)) + o.freshnessTtlMs;
    }
    if until != limit {
      var c :| c in candidates && until == Instant(c) + c.envelope.freshnessTtlMs;
      ReportsAreCandidates(input, trackId, c.envelope, c.track);
    }
  }

  lemma SupportingOf(trackId: string, candidates: seq<Candidate>, assured: Option<AssuranceDecision>, limit: int)
    requires candidates != []
    ensures var e := EntityFor(trackId, candidates, assured, limit);
      && e.supporting == SortedSeq(EnvelopeIds(candidates) + NestedIds(candidates))
      && e.validUntil == EntityValidUntil(candidates, limit)
  {
  }

  /** The entity names as supporting exactly the observations that report its track and those named by these
      reports, and is valid until the first of the reports goes stale, or the road state ends before. */
  ghost predicate RestsOnReports(input: Input, e: Entity) {
    (forall id :: id in e.supporting <==> Supports(input, e.entityId, id)) && ValidUntilFirst(input, e.entityId, e.validUntil)
  }

  lemma RestsAt(input: Input, trackId: string)
    requires WindowError(input).None? && CandidatesFor(Admitted(input), trackId) != []
    ensures RestsOnReports(input, EntityAt(input, trackId))
  {
    SupportingOf(trackId, CandidatesFor(Admitted(input), trackId), Assured(input.assurance, trackId), input.validUntil.Parse().value);
    ValidUntilAt(input, trackId);
    forall id ensures id in EntityAt(input, trackId).supporting <==> Supports(input, trackId, id) {
      SupportingAt(input, trackId, id);
    }
  }

  lemma BuiltRestsOnReports(input: Input, e: Entity)
    requires WindowError(input).None? && e in BuiltFrom(input).entities
    ensures RestsOnReports(input, e)
  {
    EntityIsMade(input, e);
    RestsAt(input, e.entityId);
  }

  lemma EntityRestsOnReports(input: Input, e: Entity)
    requires Build(input).Success? && e in Build(input).value.entities
    ensures RestsOnReports(input, e)
  {
    BuildSucceeds(input);
    BuiltRestsOnReports(input, e);
  }

  // ---------- which inputs are built, and from what ----------

  /** The road state is named, and holds from a time at most a second from now until a later one. */
  ghost predicate WindowOpen(input: Input) {
    && input.crsId != "" && input.zoneId != ""
    && input.stateTime.instant.Some? && input.validUntil.instant.Some?
    && input.stateTime.instant.value < input.validUntil.instant.value
    && input.stateTime.instant.value <= input.now + 1_000
  }

  /** The report names its track and says how confident it is. */
  ghost predicate Readable(s: Track) {
    s.trackId != "" && s.confidence.Some? && 0.0 <= s.confidence.value <= 1.0
  }

  /** A state is built exactly when its window is open, no two observations share an id, no two assurance results
      an object, no result claims authority, and every report that may be used is readable. */
  lemma BuildsExactlyWhen(input: Input)
    ensures Build(input).Success? <==>
      && WindowOpen(input)
      && (forall i, j | 0 <= i < j < |input.observations| :: input.observations[i].observationId != input.observations[j].observationId)
      && (forall i, j | 0 <= i < j < |input.assurance| :: input.assurance[i].objectBinding != input.assurance[j].objectBinding)
      && (forall r | r in input.assurance :: r.authorityIsNone)
      && forall o, s | o in input.observations && MayBeUsed(o, input.now) && s in TracksOf(o) :: Readable(s)
  {
    BuildSucceeds(input);
    AssuranceErrorMeans(input.assurance);
    assert WindowError(input).None? <==> WindowOpen(input);
    TracksReadable(input);
  }

  lemma TracksReadable(input: Input)
    ensures AdmittedError(Admitted(input)).None? <==>
      forall o, s | o in input.observations && MayBeUsed(o, input.now) && s in TracksOf(o) :: Readable(s)
  {
    AdmittedErrorMeans(Admitted(input));
    forall o ensures o in Admitted(input) <==> o in input.observations && MayBeUsed(o, input.now) {
      AdmissionMeans(o, input.now);
    }
    forall o ensures TracksError(TracksOf(o)).None? <==> forall s | s in TracksOf(o) :: Readable(s) {
      TracksErrorMeans(TracksOf(o));
      forall s ensures TrackFault(s).None? <==> Readable(s) {}
    }
  }

  /** The evidence of a state names exactly the observations that may be used, and the excluded ones are exactly
      the others. */
  lemma EveryObservationIsNamed(input: Input, id: string)
    requires Build(input).Success?
    ensures id in Build(input).value.evidenceIds <==> exists o | o in input.observations :: o.observationId == id && MayBeUsed(o, input.now)
    ensures id in Build(input).value.excludedIds <==> exists o | o in input.observations :: o.observationId == id && !MayBeUsed(o, input.now)
  {
    BuildSucceeds(input);
    forall o
      ensures o in Admitted(input) <==> o in input.observations && MayBeUsed(o, input.now)
      ensures o in Excluded(input) <==> o in input.observations && !MayBeUsed(o, input.now)
    {
      AdmissionMeans(o, input.now);
    }
    NamesAre(Admitted(input), id);
    NamesAre(Excluded(input), id);
    ListsNames(input);
  }

  lemma NamesAre(observations: seq<Observation>, id: string)
    ensures id in Ids(observations) <==> exists o | o in observations :: o.observationId == id
  {
  }

  lemma ListsNames(input: Input)
    requires WindowError(input).None?
    ensures BuiltFrom(input).evidenceIds == SortedSeq(Ids(Admitted(input))) && BuiltFrom(input).excludedIds == SortedSeq(Ids(Excluded(input)))
  {
  }
}
