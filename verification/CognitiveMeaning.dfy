/** What a built Cognitive Road State means: when it demands abstention, how it sorts its entities and
    how far it trusts them. */
module CognitiveMeaning {
  import opened Wrappers
  import opened Sequences
  import opened StableSort
  import opened TextOrder
  import opened Perception
  import opened CognitiveState
  import opened CognitiveOrder

  /** A track is in contradiction. */
  ghost predicate Contradictory(input: Input, trackId: string) {
    DivergentIds(CandidatesFor(Admitted(input), trackId)) != {} || Assured(input.assurance, trackId) == Some(Contradicted)
  }

  /** Two admitted reports of one track by one source with one capture time disagree on its state. */
  ghost predicate SourceDisagrees(input: Input, trackId: string, o: Observation, p: Observation, s: Track, t: Track) {
    && o in input.observations && Usable(o, input.now) && s in TracksOf(o) && s.trackId == trackId
    && p in input.observations && Usable(p, input.now) && t in TracksOf(p) && t.trackId == trackId
    && o.sourceId == p.sourceId && o.capturedAt.text == p.capturedAt.text && StateOf(s) != StateOf(t)
  }

  /** The observations named as divergent are those that took part in a disagreement. */
  lemma DivergentIdsMean(input: Input, trackId: string, id: string)
    ensures id in DivergentIds(CandidatesFor(Admitted(input), trackId)) <==>
      exists o, p, s, t :: SourceDisagrees(input, trackId, o, p, s, t) && o.observationId == id
  {
    var candidates := CandidatesFor(Admitted(input), trackId);
    CandidateMembers(Admitted(input), trackId);
    if id in DivergentIds(candidates) {
      var a :| a in candidates && HasDivergence(candidates, a) && a.envelope.observationId == id;
      var b :| b in candidates && Diverge(a, b);
      assert SourceDisagrees(input, trackId, a.envelope, b.envelope, a.track, b.track);
    }
    if o, p, s, t :| SourceDisagrees(input, trackId, o, p, s, t) && o.observationId == id {
      var a, b := Candidate(o, s), Candidate(p, t);
      assert a in candidates && b in candidates && Diverge(a, b);
    }
  }

  lemma DivergenceMeans(input: Input, trackId: string)
    ensures DivergentIds(CandidatesFor(Admitted(input), trackId)) != {} <==> exists o, p, s, t :: SourceDisagrees(input, trackId, o, p, s, t)
  {
    var ids := DivergentIds(CandidatesFor(Admitted(input), trackId));
    if id :| id in ids {
      DivergentIdsMean(input, trackId, id);
    }
    if o, p, s, t :| SourceDisagrees(input, trackId, o, p, s, t) {
      DivergentIdsMean(input, trackId, o.observationId);
      assert o.observationId in ids;
    }
  }

  ghost function ContradictingOf(input: Input, trackId: string): seq<string> {
    SortedSeq(ContradictingIds(CandidatesFor(Admitted(input), trackId), Assured(input.assurance, trackId)))
  }

  lemma EntityStates(input: Input, trackId: string)
    requires WindowError(input).None? && trackId in TrackIds(Admitted(input))
    ensures CandidatesFor(Admitted(input), trackId) != []
    ensures var e := EntityMaker(Admitted(input), input.assurance, input.validUntil.Parse().value)(trackId);
      && e.entityId == trackId
      && e.epistemicState == Epistemic(DivergentIds(CandidatesFor(Admitted(input), trackId)) != {}, Assured(input.assurance, trackId))
      && e.contradicting == ContradictingOf(input, trackId)
  {
    EveryTrackHasCandidates(Admitted(input));
  }

  /** The entities built are those of the admitted tracks, one for each, in the tracks' order. */
  lemma EntitiesAreTracks(input: Input)
    requires WindowError(input).None?
    ensures var trackIds, entities := SortedSeq(TrackIds(Admitted(input))), BuiltFrom(input).entities;
      |entities| == |trackIds| && forall i | 0 <= i < |trackIds| :: 
        entities[i].entityId == trackIds[i] && EpistemicOf(input, trackIds[i]) == entities[i].epistemicState && entities[i].contradicting == ContradictingOf(input, trackIds[i])
  {
    EveryTrackHasCandidates(Admitted(input));
    var trackIds := SortedSeq(TrackIds(Admitted(input)));
    forall i | 0 <= i < |trackIds|
      ensures BuiltFrom(input).entities[i].entityId == trackIds[i] && EpistemicOf(input, trackIds[i]) == BuiltFrom(input).entities[i].epistemicState
      ensures BuiltFrom(input).entities[i].contradicting == ContradictingOf(input, trackIds[i])
    {
      assert trackIds[i] in trackIds;
      EntityStates(input, trackIds[i]);
    }
  }

  ghost function EpistemicOf(input: Input, trackId: string): EpistemicState {
    Epistemic(DivergentIds(CandidatesFor(Admitted(input), trackId)) != {}, Assured(input.assurance, trackId))
  }

  lemma RecordsContradiction(input: Input, trackId: string)
    ensures ContradictionMaker(Admitted(input), input.assurance)(trackId) != [] <==> Contradictory(input, trackId)
  {
  }

  lemma ContradictionsAreContradictoryTracks(input: Input)
    requires WindowError(input).None?
    ensures BuiltFrom(input).contradictions != [] <==> exists id | id in TrackIds(Admitted(input)) :: Contradictory(input, id)
  {
    var trackIds, make := SortedSeq(TrackIds(Admitted(input))), ContradictionMaker(Admitted(input), input.assurance);
    FlatMapEmpty(trackIds, make);
    forall id ensures make(id) != [] <==> Contradictory(input, id) {
      RecordsContradiction(input, id);
    }
    assert BuiltFrom(input).contradictions == FlatMap(trackIds, make);
  }

  lemma EpistemicMeans(input: Input, trackId: string)
    ensures EpistemicOf(input, trackId) == InContradiction <==> Contradictory(input, trackId)
  {
  }

  lemma EntityOfTrack(trackIds: seq<string>, tracks: set<string>, entities: seq<Entity>, e: Entity) returns (i: nat)
    requires |entities| == |trackIds| && e in entities && forall id :: id in trackIds <==> id in tracks
    ensures i < |entities| && entities[i] == e && trackIds[i] in tracks
  {
    i :| 0 <= i < |entities| && entities[i] == e;
    assert trackIds[i] in trackIds;
  }

  lemma EntityInContradiction(input: Input, e: Entity)
    requires WindowError(input).None? && e in BuiltFrom(input).entities && e.epistemicState == InContradiction
    ensures e.entityId in TrackIds(Admitted(input)) && Contradictory(input, e.entityId)
  {
    EntitiesAreTracks(input);
    var i := EntityOfTrack(SortedSeq(TrackIds(Admitted(input))), TrackIds(Admitted(input)), BuiltFrom(input).entities, e);
    EpistemicMeans(input, e.entityId);
  }

  lemma AbstainsOnContradiction(input: Input)
    requires WindowError(input).None?
    ensures BuiltFrom(input).abstentionRequired <==> exists id | id in TrackIds(Admitted(input)) :: Contradictory(input, id)
  {
    ContradictionsAreContradictoryTracks(input);
    if e :| e in BuiltFrom(input).entities && e.epistemicState == InContradiction {
      EntityInContradiction(input, e);
    }
  }

  /** Abstention is required exactly when some admitted track has a source that contradicts itself at
      one capture time, or an assurance result that says CONTRADICTED. */
  lemma AbstentionMeansContradiction(input: Input)
    requires Build(input).Success?
    ensures Build(input).value.abstentionRequired <==>
      exists trackId | trackId in TrackIds(Admitted(input)) :: Disagreement(input, trackId) || Assured(input.assurance, trackId) == Some(Contradicted)
  {
    BuildSucceeds(input);
    AbstainsOnContradiction(input);
    forall id ensures Contradictory(input, id) <==> Disagreement(input, id) || Assured(input.assurance, id) == Some(Contradicted) {
      DivergenceMeans(input, id);
    }
  }

  ghost predicate Disagreement(input: Input, trackId: string) {
    exists o, p, s, t :: SourceDisagrees(input, trackId, o, p, s, t)
  }

  // ---------- the summary ----------

  lemma IdsOfEntities(trackIds: seq<string>, entities: seq<Entity>, states: set<EpistemicState>, of: string -> EpistemicState)
    requires |entities| == |trackIds|
    requires forall i | 0 <= i < |trackIds| :: entities[i].entityId == trackIds[i] && entities[i].epistemicState == of(trackIds[i])
    ensures forall id :: id in EntityIdsIn(entities, states) <==> id in trackIds && of(id) in states
  {
    forall id | id in EntityIdsIn(entities, states) ensures id in trackIds && of(id) in states {
      var e :| e in entities && e.epistemicState in states && e.entityId == id;
      var i :| 0 <= i < |entities| && entities[i] == e;
    }
    forall id | id in trackIds && of(id) in states ensures id in EntityIdsIn(entities, states) {
      var i :| 0 <= i < |trackIds| && trackIds[i] == id;
      assert entities[i] in entities;
    }
  }

  /** These are the tracks in one of the given states. */
  ghost predicate TracksIn(input: Input, states: set<EpistemicState>, ids: set<string>) {
    forall id :: id in ids <==> id in TrackIds(Admitted(input)) && EpistemicOf(input, id) in states
  }

  lemma EntityIdsMean(input: Input, states: set<EpistemicState>)
    requires WindowError(input).None?
    ensures TracksIn(input, states, EntityIdsIn(BuiltFrom(input).entities, states))
  {
    EntitiesAreTracks(input);
    IdsOfEntities(SortedSeq(TrackIds(Admitted(input))), BuiltFrom(input).entities, states, id => EpistemicOf(input, id));
  }

  lemma StateOfTrack(input: Input, id: string)
    ensures EpistemicOf(input, id) == Known <==> !Disagreement(input, id) && Assured(input.assurance, id) == Some(Corroborated)
    ensures EpistemicOf(input, id) == Unknown <==> !Disagreement(input, id) && Assured(input.assurance, id) == None
  {
    DivergenceMeans(input, id);
  }

  /** The three lists partition the tracks: known when corroborated and undisputed, unknown when
      unassessed and undisputed, uncertain otherwise. */
  ghost predicate Partitions(input: Input, known: seq<string>, uncertain: seq<string>, unknown: seq<string>) {
    && (forall id :: id in known <==> id in TrackIds(Admitted(input)) && !Disagreement(input, id) && Assured(input.assurance, id) == Some(Corroborated))
    && (forall id :: id in unknown <==> id in TrackIds(Admitted(input)) && !Disagreement(input, id) && Assured(input.assurance, id) == None)
    && (forall id :: id in uncertain <==> id in TrackIds(Admitted(input)) && id !in known && id !in unknown)
    && |known| + |uncertain| + |unknown| == |TrackIds(Admitted(input))|
  }

  lemma SummaryPartitionsTracks(input: Input)
    requires Build(input).Success?
    ensures Partitions(input, Build(input).value.summary.known, Build(input).value.summary.uncertain, Build(input).value.summary.unknown)
  {
    BuildSucceeds(input);
    var entities := BuiltFrom(input).entities;
    EntityIdsMean(input, {Known});
    EntityIdsMean(input, {Uncertain, InContradiction});
    EntityIdsMean(input, {Unknown});
    SplitByState(input, EntityIdsIn(entities, {Known}), EntityIdsIn(entities, {Uncertain, InContradiction}), EntityIdsIn(entities, {Unknown}));
  }

  lemma SplitByState(input: Input, known: set<string>, uncertain: set<string>, unknown: set<string>)
    requires TracksIn(input, {Known}, known) && TracksIn(input, {Uncertain, InContradiction}, uncertain) && TracksIn(input, {Unknown}, unknown)
    ensures Partitions(input, SortedSeq(known), SortedSeq(uncertain), SortedSeq(unknown))
  {
    forall id
      ensures EpistemicOf(input, id) == Known <==> !Disagreement(input, id) && Assured(input.assurance, id) == Some(Corroborated)
      ensures EpistemicOf(input, id) == Unknown <==> !Disagreement(input, id) && Assured(input.assurance, id) == None
    {
      StateOfTrack(input, id);
    }
    ThreePartsAddUp(known, uncertain, unknown, TrackIds(Admitted(input)));
  }

  lemma ThreePartsAddUp<T(!new)>(a: set<T>, b: set<T>, c: set<T>, whole: set<T>)
    requires forall x :: x in whole <==> x in a || x in b || x in c
    requires a !! b && b !! c && a !! c
    ensures |a| + |b| + |c| == |whole|
  {
    assert whole == a + b + c;
  }

  // ---------- what an entity says ----------

  /** The newest candidate of an admitted track carries a confidence between 0 and 1. */
  lemma NewestIsSound(admitted: seq<Observation>, trackId: string)
    requires AdmittedError(admitted).None? && CandidatesFor(admitted, trackId) != []
    ensures TrackFault(Newest(CandidatesFor(admitted, trackId)).track).None?
  {
    var candidates := CandidatesFor(admitted, trackId);
    SortPermutes(candidates, NewestFirst);
    var newest := Newest(candidates);
    assert newest in Sort(candidates, NewestFirst);
    CandidateMembers(admitted, trackId);
    AdmittedErrorMeans(admitted);
    TracksErrorMeans(TracksOf(newest.envelope));
  }

  lemma CandidatesAreFresh(input: Input, trackId: string)
    ensures forall c | c in CandidatesFor(Admitted(input), trackId) :: input.now <= Instant(c) + c.envelope.freshnessTtlMs
  {
    CandidateMembers(Admitted(input), trackId);
    forall c | c in CandidatesFor(Admitted(input), trackId) ensures input.now <= Instant(c) + c.envelope.freshnessTtlMs {
      assert c.envelope in Admitted(input);
      assert Usable(c.envelope, input.now);
    }
  }

  /** An entity is never trusted past the freshness of any observation behind it, nor past the road
      state's own validity; it is still valid now if the road state is; and one in contradiction has
      confidence of at most one half. */
  ghost predicate Bounded(e: Entity, candidates: seq<Candidate>, limit: int, now: int) {
    && e.validUntil <= limit
    && (forall c | c in candidates :: e.validUntil <= Instant(c) + c.envelope.freshnessTtlMs)
    && (limit >= now ==> e.validUntil >= now)
    && 0.0 <= e.confidence <= 1.0
    && (e.epistemicState == InContradiction ==> e.confidence <= 0.5)
  }

  lemma EntityBounds(input: Input, trackId: string)
    requires WindowError(input).None? && AdmittedError(Admitted(input)).None? && trackId in TrackIds(Admitted(input))
    ensures CandidatesFor(Admitted(input), trackId) != []
    ensures Bounded(EntityFor(trackId, CandidatesFor(Admitted(input), trackId), Assured(input.assurance, trackId), input.validUntil.Parse().value),
                    CandidatesFor(Admitted(input), trackId), input.validUntil.Parse().value, input.now)
  {
    EveryTrackHasCandidates(Admitted(input));
    CandidatesAreFresh(input, trackId);
    NewestIsSound(Admitted(input), trackId);
    BoundsOf(trackId, CandidatesFor(Admitted(input), trackId), Assured(input.assurance, trackId), input.validUntil.Parse().value, input.now);
  }

  lemma BoundsOf(trackId: string, candidates: seq<Candidate>, assured: Option<AssuranceDecision>, limit: int, now: int)
    requires candidates != [] && TrackFault(Newest(candidates).track).None?
    requires forall c | c in candidates :: now <= Instant(c) + c.envelope.freshnessTtlMs
    ensures Bounded(EntityFor(trackId, candidates, assured, limit), candidates, limit, now)
  {
    ValidUntilIsLeast(candidates, limit);
  }
}
