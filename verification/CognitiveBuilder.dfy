/** buildCognitiveRoadState as the source computes it, with its loops and nested maps. */
module CognitiveBuilder {
  import opened Integers
  import opened Wrappers
  import opened SetBasics
  import opened Sequences
  import opened StableSort
  import opened TextOrder
  import opened Perception
  import opened CognitiveState

  // ---------- unique and sorted ----------

  method UniqueSorted(values: seq<string>) returns (r: seq<string>)
    ensures r == SortedSeq(set v | v in values)
  {
    var unique: seq<string> := [];
    for n := 0 to |values|
      invariant Distinct(unique) && forall v :: v in unique <==> v in values[..n]
    {
      assert values[..n + 1] == values[..n] + [values[n]];
      if values[n] !in unique {
        unique := unique + [values[n]];
      }
    }
    assert values[..|values|] == values;
    SortGivesSortedSeq(unique, set v | v in values);
    return Sort(unique, Leq);
  }

  // ---------- self-contradicting sources ----------

  datatype Cohort = Cohort(sourceId: string, capturedAt: string)

  type Cohorts = map<Cohort, map<TrackState, seq<string>>>

  function CohortOf(c: Candidate): Cohort {
    Cohort(c.envelope.sourceId, c.envelope.capturedAt.text)
  }

  predicate Held(cohorts: Cohorts, cohort: Cohort, state: TrackState, id: string) {
    cohort in cohorts && state in cohorts[cohort] && id in cohorts[cohort][state]
  }

  predicate Reports(c: Candidate, cohort: Cohort, state: TrackState, id: string) {
    CohortOf(c) == cohort && StateOf(c.track) == state && c.envelope.observationId == id
  }

  ghost predicate Reported(candidates: seq<Candidate>, cohort: Cohort, state: TrackState, id: string) {
    exists c | c in candidates :: Reports(c, cohort, state, id)
  }

  ghost predicate NoEmptyStates(cohorts: Cohorts) {
    forall cohort, state | cohort in cohorts && state in cohorts[cohort] :: cohorts[cohort][state] != []
  }

  lemma ReportedExtend(front: seq<Candidate>, last: Candidate, cohort: Cohort, state: TrackState, id: string)
    ensures Reported(front + [last], cohort, state, id) <==> Reported(front, cohort, state, id) || Reports(last, cohort, state, id)
  {
    if Reported(front, cohort, state, id) {
      var c :| c in front && Reports(c, cohort, state, id);
      assert c in front + [last];
    }
    assert last in front + [last];
  }

  method AddToCohorts(cohorts: Cohorts, candidate: Candidate) returns (r: Cohorts)
    requires NoEmptyStates(cohorts)
    ensures NoEmptyStates(r)
    ensures forall k, s, id :: Held(r, k, s, id) <==> Held(cohorts, k, s, id) || Reports(candidate, k, s, id)
  {
    var key, state := CohortOf(candidate), StateOf(candidate.track);
    var states := if key in cohorts then cohorts[key] else map[];
    var ids := if state in states then states[state] else [];
    r := cohorts[key := states[state := ids + [candidate.envelope.observationId]]];
  }

  method GroupCohorts(candidates: seq<Candidate>) returns (cohorts: Cohorts)
    ensures NoEmptyStates(cohorts)
    ensures forall k, s, id :: Held(cohorts, k, s, id) <==> Reported(candidates, k, s, id)
  {
    cohorts := map[];
    for n := 0 to |candidates|
      invariant NoEmptyStates(cohorts)
      invariant forall k, s, id :: Held(cohorts, k, s, id) <==> Reported(candidates[..n], k, s, id)
    {
      assert candidates[..n + 1] == candidates[..n] + [candidates[n]];
      ghost var before := cohorts;
      cohorts := AddToCohorts(cohorts, candidates[n]);
      forall k, s, id ensures Held(cohorts, k, s, id) <==> Reported(candidates[..n + 1], k, s, id) {
        ReportedExtend(candidates[..n], candidates[n], k, s, id);
        assert Held(cohorts, k, s, id) <==> Held(before, k, s, id) || Reports(candidates[n], k, s, id);
      }
    }
    assert candidates[..|candidates|] == candidates;
  }

  /** An id held under a state of a cohort that has another state too. */
  ghost predicate InSplitCohort(cohorts: Cohorts, cohort: Cohort, id: string) {
    exists s, t :: Held(cohorts, cohort, s, id) && t in cohorts[cohort] && t != s
  }

  lemma SplitCohortsDiverge(candidates: seq<Candidate>, cohorts: Cohorts, id: string)
    requires NoEmptyStates(cohorts) && forall k, s, i :: Held(cohorts, k, s, i) <==> Reported(candidates, k, s, i)
    ensures id in DivergentIds(candidates) <==> exists k :: InSplitCohort(cohorts, k, id)
  {
    if id in DivergentIds(candidates) {
      var a :| a in candidates && HasDivergence(candidates, a) && a.envelope.observationId == id;
      var b :| b in candidates && Diverge(a, b);
      assert Reported(candidates, CohortOf(a), StateOf(a.track), id) by { assert Reports(a, CohortOf(a), StateOf(a.track), id); }
      assert Reported(candidates, CohortOf(a), StateOf(b.track), b.envelope.observationId) by { assert Reports(b, CohortOf(a), StateOf(b.track), b.envelope.observationId); }
      assert Held(cohorts, CohortOf(a), StateOf(a.track), id) && Held(cohorts, CohortOf(a), StateOf(b.track), b.envelope.observationId);
      assert InSplitCohort(cohorts, CohortOf(a), id);
    }
    if k :| InSplitCohort(cohorts, k, id) {
      var s, t :| Held(cohorts, k, s, id) && t in cohorts[k] && t != s;
      assert Held(cohorts, k, t, cohorts[k][t][0]);
      assert Reported(candidates, k, s, id) && Reported(candidates, k, t, cohorts[k][t][0]);
      var a :| a in candidates && Reports(a, k, s, id);
      var b :| b in candidates && Reports(b, k, t, cohorts[k][t][0]);
      assert Diverge(a, b);
      assert id in DivergentIds(candidates);
    }
  }

  /** All ids of one cohort, whatever state they reported. */
  method IdsOfCohort(states: map<TrackState, seq<string>>) returns (ids: seq<string>)
    ensures forall id :: id in ids <==> exists s | s in states :: id in states[s]
  {
    ids := [];
    var todo := states.Keys;
    while todo != {}
      invariant todo <= states.Keys
      invariant forall id :: id in ids <==> exists s | s in states.Keys - todo :: id in states[s]
      decreases |todo|
    {
      var s :| s in todo;
      ids := ids + states[s];
      todo := todo - {s};
      assert states.Keys - todo == states.Keys - (todo + {s}) + {s};
    }
  }

  method SameSourceSameCaptureContradictions(candidates: seq<Candidate>) returns (r: seq<string>)
    ensures r == SortedSeq(DivergentIds(candidates))
  {
    var cohorts := GroupCohorts(candidates);
    var contradictoryIds: seq<string> := [];
    var todo := cohorts.Keys;
    while todo != {}
      invariant todo <= cohorts.Keys
      invariant forall id :: id in contradictoryIds <==> exists k | k in cohorts.Keys - todo :: InSplitCohort(cohorts, k, id)
      decreases |todo|
    {
      var k :| k in todo;
      var states := cohorts[k];
      if |states| > 1 {
        var ids := IdsOfCohort(states);
        SplitCohortIds(cohorts, k, ids);
        contradictoryIds := contradictoryIds + ids;
      } else {
        OneStateDoesNotSplit(cohorts, k);
      }
      todo := todo - {k};
      assert cohorts.Keys - todo == cohorts.Keys - (todo + {k}) + {k};
    }
    r := UniqueSorted(contradictoryIds);
    forall id ensures id in contradictoryIds <==> id in DivergentIds(candidates) {
      SplitCohortsDiverge(candidates, cohorts, id);
    }
    assert (set v | v in contradictoryIds) == DivergentIds(candidates);
  }

  lemma SplitCohortIds(cohorts: Cohorts, k: Cohort, ids: seq<string>)
    requires k in cohorts && |cohorts[k]| > 1 && forall id :: id in ids <==> exists s | s in cohorts[k] :: id in cohorts[k][s]
    ensures forall id :: id in ids <==> InSplitCohort(cohorts, k, id)
  {
    forall id | id in ids ensures InSplitCohort(cohorts, k, id) {
      var s :| s in cohorts[k] && id in cohorts[k][s];
      assert |cohorts[k].Keys - {s}| >= 1;
      var t :| t in cohorts[k].Keys - {s};
      assert Held(cohorts, k, s, id);
    }
  }

  lemma OneStateDoesNotSplit(cohorts: Cohorts, k: Cohort)
    requires k in cohorts && |cohorts[k]| <= 1
    ensures forall id :: !InSplitCohort(cohorts, k, id)
  {
    forall s, t | s in cohorts[k].Keys && t in cohorts[k].Keys ensures s == t {
      AtMostOne(cohorts[k].Keys, s, t);
    }
  }

  // ---------- collecting candidates ----------

  type ByTrack = map<string, seq<Candidate>>

  function At(byTrack: ByTrack, id: string): seq<Candidate> {
    if id in byTrack then byTrack[id] else []
  }

  ghost predicate Collects(byTrack: ByTrack, admitted: seq<Observation>) {
    forall id :: At(byTrack, id) == CandidatesFor(admitted, id)
  }

  /** after is before with the candidates of these tracks added. */
  ghost predicate Adds(before: ByTrack, after: ByTrack, envelope: Observation, tracks: seq<Track>) {
    forall id :: At(after, id) == At(before, id) + TracksNamed(envelope, tracks, id)
  }

  ghost predicate NoneEmpty(byTrack: ByTrack) {
    forall id | id in byTrack :: byTrack[id] != []
  }

  lemma AddsOneMore(before: ByTrack, between: ByTrack, after: ByTrack, envelope: Observation, tracks: seq<Track>, n: nat)
    requires n < |tracks| && Adds(before, between, envelope, tracks[..n])
    requires after == between[tracks[n].trackId := At(between, tracks[n].trackId) + [Candidate(envelope, tracks[n])]]
    ensures Adds(before, after, envelope, tracks[..n + 1])
  {
    assert tracks[..n + 1][..n] == tracks[..n];
    forall id ensures At(after, id) == At(before, id) + TracksNamed(envelope, tracks[..n + 1], id) {
      assert At(between, id) == At(before, id) + TracksNamed(envelope, tracks[..n], id);
    }
  }

  method CollectTracks(byTrack: ByTrack, envelope: Observation, tracks: seq<Track>) returns (r: Result<ByTrack, BuildError>)
    requires NoneEmpty(byTrack)
    ensures r.Failure? ==> TracksError(tracks) == Some(r.error)
    ensures r.Success? ==> TracksError(tracks).None? && NoneEmpty(r.value) && Adds(byTrack, r.value, envelope, tracks)
  {
    var collected := byTrack;
    for n := 0 to |tracks|
      invariant TracksError(tracks[..n]).None?
      invariant NoneEmpty(collected) && Adds(byTrack, collected, envelope, tracks[..n])
    {
      var track := tracks[n];
      assert tracks[..n + 1][..n] == tracks[..n];
      if track.trackId == "" {
        TracksErrorStays(tracks, n + 1);
        return Failure(MissingTrackId);
      }
      if track.confidence.None? || track.confidence.value < 0.0 || track.confidence.value > 1.0 {
        TracksErrorStays(tracks, n + 1);
        return Failure(InvalidTrackConfidence);
      }
      ghost var before := collected;
      var existing := At(collected, track.trackId);
      collected := collected[track.trackId := existing + [Candidate(envelope, track)]];
      AddsOneMore(byTrack, before, collected, envelope, tracks, n);
    }
    assert tracks[..|tracks|] == tracks;
    return Success(collected);
  }

  lemma {:induction false} TracksErrorStays(tracks: seq<Track>, n: nat)
    requires n <= |tracks| && TracksError(tracks[..n]).Some?
    ensures TracksError(tracks) == TracksError(tracks[..n])
    decreases |tracks|
  {
    if n == |tracks| {
      assert tracks[..n] == tracks;
    } else {
      assert tracks[..|tracks| - 1][..n] == tracks[..n];
      TracksErrorStays(tracks[..|tracks| - 1], n);
    }
  }

  lemma {:induction false} AdmittedErrorStays(admitted: seq<Observation>, n: nat)
    requires n <= |admitted| && AdmittedError(admitted[..n]).Some?
    ensures AdmittedError(admitted) == AdmittedError(admitted[..n])
    decreases |admitted|
  {
    if n == |admitted| {
      assert admitted[..n] == admitted;
    } else {
      assert admitted[..|admitted| - 1][..n] == admitted[..n];
      AdmittedErrorStays(admitted[..|admitted| - 1], n);
    }
  }

  method CollectTrackCandidates(admitted: seq<Observation>) returns (r: Result<ByTrack, BuildError>)
    ensures r.Failure? ==> AdmittedError(admitted) == Some(r.error)
    ensures r.Success? ==> AdmittedError(admitted).None? && NoneEmpty(r.value) && Collects(r.value, admitted)
  {
    var byTrack: ByTrack := map[];
    for n := 0 to |admitted|
      invariant AdmittedError(admitted[..n]).None?
      invariant NoneEmpty(byTrack) && Collects(byTrack, admitted[..n])
    {
      var envelope := admitted[n];
      assert admitted[..n + 1][..n] == admitted[..n];
      if envelope.payload.TrackSet? {
        var collected := CollectTracks(byTrack, envelope, envelope.payload.tracks);
        if collected.Failure? {
          AdmittedErrorStays(admitted, n + 1);
          return Failure(collected.error);
        }
        CollectsOneMore(byTrack, collected.value, admitted, n);
        byTrack := collected.value;
      } else {
        CollectsOneMore(byTrack, byTrack, admitted, n);
      }
    }
    assert admitted[..|admitted|] == admitted;
    return Success(byTrack);
  }

  lemma CollectsOneMore(before: ByTrack, after: ByTrack, admitted: seq<Observation>, n: nat)
    requires n < |admitted| && Collects(before, admitted[..n])
    requires Adds(before, after, admitted[n], TracksOf(admitted[n]))
    ensures Collects(after, admitted[..n + 1])
  {
    assert admitted[..n + 1][..n] == admitted[..n];
    forall id ensures At(after, id) == CandidatesFor(admitted[..n + 1], id) {
      assert At(before, id) == CandidatesFor(admitted[..n], id);
    }
  }

  // ---------- assurance results ----------

  method UniqueAssuranceResults(results: seq<Assurance>) returns (r: Result<map<string, AssuranceDecision>, BuildError>)
    ensures r.Failure? ==> AssuranceError(results) == Some(r.error)
    ensures r.Success? ==> AssuranceError(results).None? && forall id :: Assured(results, id) == if id in r.value then Some(r.value[id]) else None
  {
    var byObject: map<string, AssuranceDecision> := map[];
    for n := 0 to |results|
      invariant AssuranceError(results[..n]).None?
      invariant forall id :: Assured(results[..n], id) == if id in byObject then Some(byObject[id]) else None
      invariant forall id :: id in byObject <==> exists r | r in results[..n] :: r.objectBinding == id
    {
      var result := results[n];
      assert results[..n + 1] == results[..n] + [result] && results[..n + 1][..n] == results[..n];
      if !result.authorityIsNone {
        AssuranceErrorStays(results, n + 1);
        return Failure(AuthorityImport);
      }
      if result.objectBinding in byObject {
        AssuranceErrorStays(results, n + 1);
        return Failure(DuplicateBinding);
      }
      byObject := byObject[result.objectBinding := result.decision];
    }
    assert results[..|results|] == results;
    return Success(byObject);
  }

  lemma {:induction false} AssuranceErrorStays(results: seq<Assurance>, n: nat)
    requires n <= |results| && AssuranceError(results[..n]).Some?
    ensures AssuranceError(results) == AssuranceError(results[..n])
    decreases |results|
  {
    if n == |results| {
      assert results[..n] == results;
    } else {
      assert results[..|results| - 1][..n] == results[..n];
      AssuranceErrorStays(results[..|results| - 1], n);
    }
  }

  // ---------- admission ----------

  lemma FilterOneMore(observations: seq<Observation>, n: nat, keep: Observation -> bool)
    requires n < |observations|
    ensures Filter(observations[..n + 1], keep) == Filter(observations[..n], keep) + if keep(observations[n]) then [observations[n]] else []
    ensures Ids(Filter(observations[..n + 1], keep)) == Ids(Filter(observations[..n], keep)) + if keep(observations[n]) then {observations[n].observationId} else {}
  {
    assert observations[..n + 1][..n] == observations[..n];
    IdsAppend(Filter(observations[..n], keep), observations[n]);
  }

  lemma IdsAppend(s: seq<Observation>, o: Observation)
    ensures Ids(s + [o]) == Ids(s) + {o.observationId}
  {
    assert o in s + [o];
    forall id | id in Ids(s) ensures id in Ids(s + [o]) {
      var p :| p in s && p.observationId == id;
      assert p in s + [o];
    }
  }

  lemma IdsOneMore(observations: seq<Observation>, n: nat)
    requires n < |observations|
    ensures Ids(observations[..n + 1]) == Ids(observations[..n]) + {observations[n].observationId}
    ensures IdsDistinct(observations[..n + 1]) <==> IdsDistinct(observations[..n]) && observations[n].observationId !in Ids(observations[..n])
  {
    var front, last := observations[..n], observations[n];
    assert observations[..n + 1] == front + [last];
    IdsAppend(front, last);
    if last.observationId in Ids(front) {
      var o :| o in front && o.observationId == last.observationId;
      var i :| 0 <= i < n && front[i] == o;
      assert observations[..n + 1][i].observationId == observations[..n + 1][n].observationId;
    } else {
      forall i | 0 <= i < n ensures front[i].observationId != last.observationId {
        assert front[i] in front;
      }
    }
  }

  lemma RepeatStays(observations: seq<Observation>, n: nat)
    requires n <= |observations| && !IdsDistinct(observations[..n])
    ensures !IdsDistinct(observations)
  {
    var i, j :| 0 <= i < j < n && observations[..n][i].observationId == observations[..n][j].observationId;
    assert observations[i].observationId == observations[j].observationId;
  }

  function Members(ids: seq<string>): set<string> {
    set id | id in ids
  }

  method AdmitOne(observations: seq<Observation>, n: nat, now: int, admitted: seq<Observation>, excluded: seq<string>)
      returns (admitted': seq<Observation>, excluded': seq<string>)
    requires n < |observations|
    requires admitted == Filter(observations[..n], UsableAt(now)) && Members(excluded) == Ids(Filter(observations[..n], UnusableAt(now)))
    ensures admitted' == Filter(observations[..n + 1], UsableAt(now)) && Members(excluded') == Ids(Filter(observations[..n + 1], UnusableAt(now)))
  {
    var observation := observations[n];
    FilterOneMore(observations, n, UsableAt(now));
    FilterOneMore(observations, n, UnusableAt(now));
    if Usable(observation, now) {
      return admitted + [observation], excluded;
    }
    assert Members(excluded + [observation.observationId]) == Members(excluded) + {observation.observationId};
    return admitted, excluded + [observation.observationId];
  }

  /** Admit or exclude each observation; None on a repeated id. */
  method AdmitObservations(observations: seq<Observation>, now: int) returns (r: Option<(seq<Observation>, seq<string>)>)
    ensures r.Some? <==> IdsDistinct(observations)
    ensures r.Some? ==> r.value.0 == Filter(observations, UsableAt(now)) && Members(r.value.1) == Ids(Filter(observations, UnusableAt(now)))
  {
    var observedIds: set<string> := {};
    var admitted: seq<Observation> := [];
    var excluded: seq<string> := [];
    for n := 0 to |observations|
      invariant IdsDistinct(observations[..n])
      invariant observedIds == Ids(observations[..n])
      invariant admitted == Filter(observations[..n], UsableAt(now)) && Members(excluded) == Ids(Filter(observations[..n], UnusableAt(now)))
    {
      IdsOneMore(observations, n);
      if observations[n].observationId in observedIds {
        RepeatStays(observations, n + 1);
        return None;
      }
      observedIds := observedIds + {observations[n].observationId};
      admitted, excluded := AdmitOne(observations, n, now, admitted, excluded);
    }
    assert observations[..|observations|] == observations;
    return Some((admitted, excluded));
  }

  // ---------- one entity ----------

  method SortedKeys(keys: set<string>) returns (r: seq<string>)
    ensures r == SortedSeq(keys)
  {
    var listed: seq<string> := [];
    var todo := keys;
    while todo != {}
      invariant todo <= keys && Members(listed) == keys - todo
      decreases |todo|
    {
      var key :| key in todo;
      assert Members(listed + [key]) == Members(listed) + {key};
      listed, todo := listed + [key], todo - {key};
    }
    r := UniqueSorted(listed);
    assert (set v | v in listed) == keys;
  }

  method FindValidUntil(candidates: seq<Candidate>, crsValidUntil: int) returns (limit: int)
    ensures limit == EntityValidUntil(candidates, crsValidUntil)
  {
    limit := crsValidUntil;
    for n := 0 to |candidates|
      invariant limit == EntityValidUntil(candidates[..n], crsValidUntil)
    {
      assert candidates[..n + 1][..n] == candidates[..n];
      limit := Min(limit, Instant(candidates[n]) + candidates[n].envelope.freshnessTtlMs);
    }
    assert candidates[..|candidates|] == candidates;
  }

  method SupportingIds(candidates: seq<Candidate>) returns (envelopeIds: seq<string>, supporting: seq<string>)
    ensures envelopeIds == SortedSeq(EnvelopeIds(candidates))
    ensures supporting == SortedSeq(EnvelopeIds(candidates) + NestedIds(candidates))
  {
    var ids := MapSeq(candidates, (c: Candidate) => c.envelope.observationId);
    forall c | c in candidates ensures c.envelope.observationId in ids {
      var i :| 0 <= i < |candidates| && candidates[i] == c;
      assert ids[i] == c.envelope.observationId;
    }
    assert (set v | v in ids) == EnvelopeIds(candidates);
    envelopeIds := UniqueSorted(ids);
    var nested := FlatMap(candidates, (c: Candidate) => c.track.supportingObservationIds);
    assert (set v | v in envelopeIds + nested) == EnvelopeIds(candidates) + NestedIds(candidates);
    supporting := UniqueSorted(envelopeIds + nested);
  }

  method BuildEntity(trackId: string, candidates: seq<Candidate>, assured: Option<AssuranceDecision>, limit: int)
      returns (entity: Entity, recorded: seq<Contradiction>)
    requires candidates != []
    ensures entity == EntityFor(trackId, candidates, assured, limit) && recorded == ContradictionsFor(trackId, candidates, assured)
  {
    var newest := Newest(candidates).track;
    var internalIds := SameSourceSameCaptureContradictions(candidates);
    var divergent := |internalIds| > 0;
    assert divergent <==> DivergentIds(candidates) != {};
    var assuranceContradiction := assured == Some(Contradicted);
    var state := Epistemic(divergent, assured);
    var envelopeIds, supporting := SupportingIds(candidates);
    recorded := [];
    if divergent || assuranceContradiction {
      recorded := [Contradiction(trackId, if assuranceContradiction then envelopeIds else internalIds,
                                 if divergent then DivergentSameSource else MaterialByAssurance)];
    }
    var validUntil := FindValidUntil(candidates, limit);
    entity := Entity(trackId, MapEntityClass(newest.objectClass), newest.kinematics, newest.laneId, newest.roadSegmentId, supporting,
                     if divergent then internalIds else if assuranceContradiction then envelopeIds else [],
                     ConfidenceOf(newest, state), state, validUntil);
  }

  // ---------- the whole state ----------

  lemma CollectedKeys(byTrack: ByTrack, admitted: seq<Observation>)
    requires NoneEmpty(byTrack) && Collects(byTrack, admitted)
    ensures byTrack.Keys == TrackIds(admitted)
  {
    EveryTrackHasCandidates(admitted);
    forall id ensures id in byTrack.Keys <==> id in TrackIds(admitted) {
      assert At(byTrack, id) == CandidatesFor(admitted, id);
      CandidateMembers(admitted, id);
      if id in byTrack.Keys {
        var c := byTrack[id][0];
        assert c in CandidatesFor(admitted, id);
      }
    }
  }

  /** The maps hold what the specification finds for this track. */
  ghost predicate Answers(byTrack: ByTrack, byObject: map<string, AssuranceDecision>, admitted: seq<Observation>, assurance: seq<Assurance>, id: string) {
    && id in byTrack && byTrack[id] == CandidatesFor(admitted, id) && byTrack[id] != []
    && Assured(assurance, id) == if id in byObject then Some(byObject[id]) else None
  }

  method BuildTrack(id: string, byTrack: ByTrack, byObject: map<string, AssuranceDecision>, limit: int,
                    ghost admitted: seq<Observation>, ghost assurance: seq<Assurance>)
      returns (entity: Entity, recorded: seq<Contradiction>)
    requires Answers(byTrack, byObject, admitted, assurance, id)
    ensures entity == EntityMaker(admitted, assurance, limit)(id) && recorded == ContradictionMaker(admitted, assurance)(id)
  {
    entity, recorded := BuildEntity(id, byTrack[id], if id in byObject then Some(byObject[id]) else None, limit);
  }

  method BuildEntities(trackIds: seq<string>, byTrack: ByTrack, byObject: map<string, AssuranceDecision>, limit: int,
                       ghost admitted: seq<Observation>, ghost assurance: seq<Assurance>)
      returns (entities: seq<Entity>, contradictions: seq<Contradiction>)
    requires forall id | id in trackIds :: Answers(byTrack, byObject, admitted, assurance, id)
    ensures forall id | id in trackIds :: EntityMaker(admitted, assurance, limit).requires(id)
    ensures entities == MapSeq(trackIds, EntityMaker(admitted, assurance, limit))
    ensures contradictions == FlatMap(trackIds, ContradictionMaker(admitted, assurance))
  {
    entities, contradictions := [], [];
    ghost var make, record := EntityMaker(admitted, assurance, limit), ContradictionMaker(admitted, assurance);
    for n := 0 to |trackIds|
      invariant forall id | id in trackIds :: make.requires(id)
      invariant entities == MapSeq(trackIds[..n], make) && contradictions == FlatMap(trackIds[..n], record)
    {
      var entity, recorded := BuildTrack(trackIds[n], byTrack, byObject, limit, admitted, assurance);
      MapSeqNext(trackIds, n, make);
      FlatMapNext(trackIds, n, record);
      entities, contradictions := entities + [entity], contradictions + recorded;
    }
    assert trackIds[..|trackIds|] == trackIds;
  }

  method Summarize(entities: seq<Entity>) returns (summary: Summary)
    ensures summary == SummaryOf(entities)
  {
    var known := SortedKeys(EntityIdsIn(entities, {Known}));
    var uncertain := SortedKeys(EntityIdsIn(entities, {Uncertain, InContradiction}));
    var unknown := SortedKeys(EntityIdsIn(entities, {Unknown}));
    return Summary(known, uncertain, unknown);
  }

  method BuildCognitiveRoadState(input: Input) returns (r: Result<Built, BuildError>)
    ensures r == Build(input)
  {
    var windowError := WindowError(input);
    if windowError.Some? {
      return Failure(windowError.value);
    }
    var admission := AdmitObservations(input.observations, input.now);
    if admission.None? {
      return Failure(DuplicateObservationId);
    }
    var (admitted, excluded) := admission.value;
    var byObject := UniqueAssuranceResults(input.assurance);
    if byObject.Failure? {
      return Failure(byObject.error);
    }
    var byTrack := CollectTrackCandidates(admitted);
    if byTrack.Failure? {
      return Failure(byTrack.error);
    }
    CollectedKeys(byTrack.value, admitted);
    forall id | id in byTrack.value ensures Answers(byTrack.value, byObject.value, admitted, input.assurance, id) {
      assert At(byTrack.value, id) == CandidatesFor(admitted, id);
    }
    var trackIds := SortedKeys(byTrack.value.Keys);
    var entities, contradictions := BuildEntities(trackIds, byTrack.value, byObject.value, input.validUntil.Parse().value, admitted, input.assurance);
    var summary := Summarize(entities);
    var evidenceIds := SortedKeys(Ids(admitted));
    var excludedIds := SortedKeys(Members(excluded));
    return Success(Built(entities, contradictions, summary, evidenceIds, excludedIds, RequiresAbstention(entities, contradictions)));
  }
}
