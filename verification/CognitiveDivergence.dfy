/** The check for self-contradicting sources: what it misses because it compares capture times as text,
    and where its result is written down. */
module CognitiveDivergence {
  import opened Wrappers
  import opened Sequences
  import opened TextOrder
  import opened Perception
  import opened CognitiveState
  import opened CognitiveOrder
  import opened CognitiveMeaning

  // ---------- capture times are compared as text ----------

  ghost predicate ReportsTrack(input: Input, trackId: string, o: Observation, s: Track) {
    o in input.observations && Usable(o, input.now) && s in TracksOf(o) && s.trackId == trackId
  }

  /** Two admitted reports of one track by one source at one instant disagree on its state. */
  ghost predicate InstantDisagrees(input: Input, trackId: string, o: Observation, p: Observation, s: Track, t: Track) {
    && ReportsTrack(input, trackId, o, s) && ReportsTrack(input, trackId, p, t)
    && o.sourceId == p.sourceId && o.capturedAt.instant == p.capturedAt.instant && StateOf(s) != StateOf(t)
  }

  ghost predicate InstantDisagreement(input: Input, trackId: string) {
    exists o, p, s, t :: InstantDisagrees(input, trackId, o, p, s, t)
  }

  /** The check finds every observation that disagrees with its source at its instant, and no other. */
  ghost predicate FindsEveryInstant(input: Input) {
    forall trackId, id ::
      id in DivergentIds(CandidatesFor(Admitted(input), trackId)) <==>
        exists o, p, s, t :: InstantDisagrees(input, trackId, o, p, s, t) && o.observationId == id
  }

  /** The state demands abstention exactly when a source disagrees with itself at one instant, or an
      assurance result says CONTRADICTED. */
  ghost predicate AbstainsAtEveryInstant(input: Input)
    requires Build(input).Success?
  {
    Build(input).value.abstentionRequired <==>
      exists trackId | trackId in TrackIds(Admitted(input)) :: InstantDisagreement(input, trackId) || Assured(input.assurance, trackId) == Some(Contradicted)
  }

  /** b is a with other payloads in its observations. */
  ghost predicate SameHeaders(a: Input, b: Input) {
    && b == a.(observations := b.observations) && |b.observations| == |a.observations|
    && forall i | 0 <= i < |a.observations| :: b.observations[i] == a.observations[i].(payload := b.observations[i].payload)
  }

  /** What is refused whatever the payloads say. */
  ghost predicate HeadersAccepted(a: Input) {
    WindowError(a).None? && IdsDistinct(a.observations) && AssuranceError(a.assurance).None?
  }

  /** Date.parse is a function of the text. */
  ghost predicate ReadAlike(a: Input) {
    forall o, p | o in a.observations && p in a.observations && o.capturedAt.text == p.capturedAt.text :: o.capturedAt == p.capturedAt
  }

  ghost predicate TwoWritings(a: Input, o: Observation, p: Observation) {
    && o in a.observations && p in a.observations && Usable(o, a.now) && Usable(p, a.now)
    && o.sourceId == p.sourceId && o.capturedAt.instant == p.capturedAt.instant && o.capturedAt.text != p.capturedAt.text
  }

  /** Some source wrote one instant in two ways, in observations that are both admitted. */
  ghost predicate WrittenApart(a: Input) {
    exists o, p :: TwoWritings(a, o, p)
  }

  lemma PayloadsAreNotGated(o: Observation, payload: Payload, now: int)
    ensures Usable(o.(payload := payload), now) == Usable(o, now)
  {
  }

  /** The observation of a whose header o carries. */
  lemma HeaderOf(a: Input, b: Input, o: Observation) returns (original: Observation)
    requires SameHeaders(a, b) && o in b.observations
    ensures original in a.observations && o.sourceId == original.sourceId && o.capturedAt == original.capturedAt
    ensures Usable(o, b.now) == Usable(original, a.now)
  {
    var i :| 0 <= i < |b.observations| && b.observations[i] == o;
    original := a.observations[i];
    PayloadsAreNotGated(original, o.payload, a.now);
  }

  lemma HeadersDecideReading(a: Input, b: Input)
    requires SameHeaders(a, b) && ReadAlike(a)
    ensures ReadAlike(b)
  {
    forall o, p | o in b.observations && p in b.observations && o.capturedAt.text == p.capturedAt.text ensures o.capturedAt == p.capturedAt {
      var x := HeaderOf(a, b, o);
      var y := HeaderOf(a, b, p);
    }
  }

  lemma HeadersDecideWriting(a: Input, b: Input)
    requires SameHeaders(a, b) && WrittenApart(b)
    ensures WrittenApart(a)
  {
    var o, p :| TwoWritings(b, o, p);
    var x := HeaderOf(a, b, o);
    var y := HeaderOf(a, b, p);
    assert TwoWritings(a, x, y);
  }

  lemma OneWritingSuffices(input: Input)
    requires ReadAlike(input) && !WrittenApart(input)
    ensures forall trackId, o, p, s, t :: SourceDisagrees(input, trackId, o, p, s, t) <==> InstantDisagrees(input, trackId, o, p, s, t)
  {
    forall trackId, o, p, s, t
      ensures SourceDisagrees(input, trackId, o, p, s, t) <==> InstantDisagrees(input, trackId, o, p, s, t)
    {
      if InstantDisagrees(input, trackId, o, p, s, t) {
        assert !TwoWritings(input, o, p);
      }
    }
  }

  lemma OneWritingIsComplete(input: Input)
    requires ReadAlike(input) && !WrittenApart(input) && Build(input).Success?
    ensures FindsEveryInstant(input) && AbstainsAtEveryInstant(input)
  {
    OneWritingSuffices(input);
    forall trackId, id
      ensures id in DivergentIds(CandidatesFor(Admitted(input), trackId)) <==>
        exists o, p, s, t :: InstantDisagrees(input, trackId, o, p, s, t) && o.observationId == id
    {
      DivergentIdsMean(input, trackId, id);
      if o, p, s, t :| SourceDisagrees(input, trackId, o, p, s, t) && o.observationId == id {
        assert InstantDisagrees(input, trackId, o, p, s, t);
      }
      if o, p, s, t :| InstantDisagrees(input, trackId, o, p, s, t) && o.observationId == id {
        assert SourceDisagrees(input, trackId, o, p, s, t);
      }
    }
    AbstentionMeansContradiction(input);
    forall trackId ensures Disagreement(input, trackId) <==> InstantDisagreement(input, trackId) {
      if o, p, s, t :| SourceDisagrees(input, trackId, o, p, s, t) {
        assert InstantDisagrees(input, trackId, o, p, s, t);
      }
      if o, p, s, t :| InstantDisagrees(input, trackId, o, p, s, t) {
        assert SourceDisagrees(input, trackId, o, p, s, t);
      }
    }
  }

  // ---------- payloads that hide a disagreement ----------

  /** A name longer than every object that has been assessed. */
  function FreshName(results: seq<Assurance>): (name: string)
    ensures name != "" && forall r | r in results :: |r.objectBinding| < |name|
  {
    if results == [] then "t"
    else
      assert results == results[..|results| - 1] + [results[|results| - 1]];
      FreshName(results[..|results| - 1]) + results[|results| - 1].objectBinding
  }

  lemma {:induction false} UnassessedIsUnassured(results: seq<Assurance>, trackId: string)
    requires forall r | r in results :: r.objectBinding != trackId
    ensures Assured(results, trackId) == None
  {
    if results != [] {
      UnassessedIsUnassured(results[..|results| - 1], trackId);
    }
  }

  function TrackIn(name: string, lane: string): Track {
    Track(name, "VEHICLE", "", Some(lane), None, Some(0.5), [])
  }

  /** The i-th observation reports the track in one lane, the j-th in another, the others nothing. */
  function PayloadAt(k: nat, i: nat, j: nat, name: string): Payload {
    if k == i then TrackSet([TrackIn(name, "1")]) else if k == j then TrackSet([TrackIn(name, "2")]) else OtherPayload("")
  }

  function SetApart(a: Input, i: nat, j: nat, name: string): (b: Input)
    ensures SameHeaders(a, b) && forall k | 0 <= k < |a.observations| :: b.observations[k].payload == PayloadAt(k, i, j, name)
  {
    a.(observations := seq(|a.observations|, k requires 0 <= k < |a.observations| => a.observations[k].(payload := PayloadAt(k, i, j, name))))
  }

  lemma SetApartBuilds(a: Input, i: nat, j: nat, name: string)
    requires HeadersAccepted(a) && name != ""
    ensures Build(SetApart(a, i, j, name)).Success?
  {
    var b := SetApart(a, i, j, name);
    BuildSucceeds(b);
    AdmittedErrorMeans(Admitted(b));
    forall o | o in Admitted(b) ensures TracksError(TracksOf(o)).None? {
      assert o in b.observations;
      TracksErrorMeans(TracksOf(o));
    }
  }

  /** Who reports the track, and in which lane. */
  lemma ReportsInSetApart(a: Input, i: nat, j: nat, name: string, trackId: string, o: Observation, s: Track)
    requires i < |a.observations| && j < |a.observations| && i != j && ReportsTrack(SetApart(a, i, j, name), trackId, o, s)
    ensures trackId == name
    ensures var b := SetApart(a, i, j, name);
      (o == b.observations[i] && s == TrackIn(name, "1")) || (o == b.observations[j] && s == TrackIn(name, "2"))
  {
    var b := SetApart(a, i, j, name);
    var k :| 0 <= k < |b.observations| && b.observations[k] == o;
  }

  lemma SetApartIsMissed(a: Input, i: nat, j: nat, name: string)
    requires i < |a.observations| && j < |a.observations| && a.observations[i].capturedAt.text != a.observations[j].capturedAt.text
    ensures forall trackId :: !Disagreement(SetApart(a, i, j, name), trackId)
    ensures forall trackId | trackId in TrackIds(Admitted(SetApart(a, i, j, name))) :: trackId == name
  {
    var b := SetApart(a, i, j, name);
    forall trackId, o, p, s, t ensures !SourceDisagrees(b, trackId, o, p, s, t) {
      if SourceDisagrees(b, trackId, o, p, s, t) {
        ReportsInSetApart(a, i, j, name, trackId, o, s);
        ReportsInSetApart(a, i, j, name, trackId, p, t);
      }
    }
    forall trackId | trackId in TrackIds(Admitted(b)) ensures trackId == name {
      var o, s :| o in Admitted(b) && s in TracksOf(o) && s.trackId == trackId;
      ReportsInSetApart(a, i, j, name, trackId, o, s);
    }
  }

  lemma SetApartDisagrees(a: Input, i: nat, j: nat, name: string)
    requires i < |a.observations| && j < |a.observations| && TwoWritings(a, a.observations[i], a.observations[j])
    ensures var b := SetApart(a, i, j, name);
      && InstantDisagrees(b, name, b.observations[i], b.observations[j], TrackIn(name, "1"), TrackIn(name, "2"))
      && name in TrackIds(Admitted(b))
  {
    var b := SetApart(a, i, j, name);
    assert TracksOf(b.observations[i]) == [TrackIn(name, "1")] && TracksOf(b.observations[j]) == [TrackIn(name, "2")];
    assert b.observations[i] in Admitted(b);
  }

  lemma WritingApartHides(a: Input) returns (b: Input)
    requires HeadersAccepted(a) && WrittenApart(a)
    ensures SameHeaders(a, b) && Build(b).Success? && !FindsEveryInstant(b) && !AbstainsAtEveryInstant(b)
  {
    var o, p :| TwoWritings(a, o, p);
    var i :| 0 <= i < |a.observations| && a.observations[i] == o;
    var j :| 0 <= j < |a.observations| && a.observations[j] == p;
    var name := FreshName(a.assurance);
    b := SetApart(a, i, j, name);
    SetApartBuilds(a, i, j, name);
    SetApartIsMissed(a, i, j, name);
    SetApartDisagrees(a, i, j, name);
    DivergentIdsMean(b, name, b.observations[i].observationId);
    if o', p', s, t :| SourceDisagrees(b, name, o', p', s, t) {
      assert Disagreement(b, name);
    }
    AbstentionMeansContradiction(b);
    UnassessedIsUnassured(a.assurance, name);
    assert InstantDisagreement(b, name);
  }

  /** The check groups reports by the text of capturedAt.  For observations with these headers it finds
      every disagreement of a source with itself at one instant, whatever acceptable payloads they
      carry, exactly when no source wrote one instant in two ways; and so does the demand to abstain. */
  lemma DivergenceCheckIsComplete(a: Input)
    requires HeadersAccepted(a) && ReadAlike(a)
    ensures (forall b | SameHeaders(a, b) && Build(b).Success? :: FindsEveryInstant(b)) <==> !WrittenApart(a)
    ensures (forall b | SameHeaders(a, b) && Build(b).Success? :: AbstainsAtEveryInstant(b)) <==> !WrittenApart(a)
  {
    if WrittenApart(a) {
      var b := WritingApartHides(a);
    } else {
      forall b | SameHeaders(a, b) && Build(b).Success? ensures FindsEveryInstant(b) && AbstainsAtEveryInstant(b) {
        HeadersDecideReading(a, b);
        if WrittenApart(b) {
          HeadersDecideWriting(a, b);
        }
        OneWritingIsComplete(b);
      }
    }
  }

  // ---------- inputs that show it ----------

  const MIDNIGHT := 1_767_225_600_000

  function Written(text: string): Timestamp {
    Timestamp(text, Some(MIDNIGHT))
  }

  function CameraReport(id: string, source: string, capturedAt: string, lane: string): Observation {
    Observation(id, source, true, Written(capturedAt), Written(capturedAt), Written(capturedAt), 0, 1_000, Healthy, [], Valid,
                TrackSet([TrackIn("car", lane)]))
  }

  function InputOf(observations: seq<Observation>, assurance: seq<Assurance>): Input {
    Input("crs", "zone", Written("2026-01-01T00:00:00Z"), Timestamp("2026-01-01T00:00:01Z", Some(MIDNIGHT + 1_000)), MIDNIGHT, observations, assurance)
  }

  lemma CameraReportIsAdmitted(id: string, source: string, capturedAt: string, lane: string)
    ensures var o := CameraReport(id, source, capturedAt, lane);
      Usable(o, MIDNIGHT) && TrackIn("car", lane) in TracksOf(o) && TracksError(TracksOf(o)).None?
  {
    TracksErrorMeans(TracksOf(CameraReport(id, source, capturedAt, lane)));
  }

  lemma ReportsBuild(observations: seq<Observation>, assurance: seq<Assurance>)
    requires IdsDistinct(observations) && AssuranceError(assurance).None?
    requires forall o | o in observations :: TracksError(TracksOf(o)).None?
    ensures Build(InputOf(observations, assurance)).Success?
  {
    var input := InputOf(observations, assurance);
    AdmittedErrorMeans(Admitted(input));
    BuildSucceeds(input);
  }

  lemma DifferentLanesDiverge(lane: string, other: string)
    requires lane != other
    ensures StateOf(TrackIn("car", lane)) != StateOf(TrackIn("car", other))
  {
  }

  /** One camera reports one car in two lanes at one instant, which it writes in two ways: the state is
      built without any demand to abstain. */
  lemma DisagreementMissed(camera: string, text: string, other: string, assurance: seq<Assurance>)
    requires text != other && AssuranceError(assurance).None? && forall r | r in assurance :: r.decision != Contradicted
    ensures var input := InputOf([CameraReport("o1", camera, text, "1"), CameraReport("o2", camera, other, "2")], assurance);
      && Build(input).Success? && !Build(input).value.abstentionRequired
      && exists o, p, s, t :: InstantDisagrees(input, "car", o, p, s, t)
  {
    var x, y := CameraReport("o1", camera, text, "1"), CameraReport("o2", camera, other, "2");
    var input := InputOf([x, y], assurance);
    assert "o1"[1] != "o2"[1] && "1"[0] != "2"[0];
    CameraReportIsAdmitted("o1", camera, text, "1");
    CameraReportIsAdmitted("o2", camera, other, "2");
    ReportsBuild([x, y], assurance);
    DifferentLanesDiverge("1", "2");
    assert InstantDisagrees(input, "car", x, y, TrackIn("car", "1"), TrackIn("car", "2"));
    TwoTextsDoNotDisagree(input, x, y);
    AbstentionMeansContradiction(input);
    forall trackId ensures Assured(assurance, trackId) != Some(Contradicted) {
      AssuredIsOneOf(assurance, trackId);
    }
  }

  lemma TwoTextsDoNotDisagree(input: Input, x: Observation, y: Observation)
    requires input.observations == [x, y] && x.capturedAt.text != y.capturedAt.text
    requires (exists t :: TracksOf(x) == [t]) && exists t :: TracksOf(y) == [t]
    ensures forall trackId :: !Disagreement(input, trackId)
  {
  }

  lemma {:induction false} AssuredIsOneOf(results: seq<Assurance>, trackId: string)
    ensures Assured(results, trackId).Some? ==> exists r | r in results :: r.decision == Assured(results, trackId).value
  {
    if results != [] {
      AssuredIsOneOf(results[..|results| - 1], trackId);
      assert results[|results| - 1] in results;
    }
  }

  /** So it is with the same second once written without and once with its milliseconds, or with its
      zone as Z and as an offset. */
  lemma MillisecondsHideDisagreement()
    ensures forall other | other in {"2026-01-01T00:00:00.000Z", "2026-01-01T00:00:00+00:00"} ::
      var input := InputOf([CameraReport("o1", "cam", "2026-01-01T00:00:00Z", "1"), CameraReport("o2", "cam", other, "2")], []);
      && Build(input).Success? && !Build(input).value.abstentionRequired && InstantDisagreement(input, "car")
  {
    var text := "2026-01-01T00:00:00Z";
    forall other | other in {"2026-01-01T00:00:00.000Z", "2026-01-01T00:00:00+00:00"}
      ensures var input := InputOf([CameraReport("o1", "cam", text, "1"), CameraReport("o2", "cam", other, "2")], []);
        && Build(input).Success? && !Build(input).value.abstentionRequired && InstantDisagreement(input, "car")
    {
      assert |other| > |text|;
      DisagreementMissed("cam", text, other, []);
    }
  }

  // ---------- the two lists of a contradiction ----------

  lemma EntityOfTrackIs(input: Input, e: Entity)
    requires WindowError(input).None? && e in BuiltFrom(input).entities
    ensures e.entityId in TrackIds(Admitted(input)) && e.contradicting == ContradictingOf(input, e.entityId)
    ensures e.epistemicState == InContradiction <==> Contradictory(input, e.entityId)
  {
    EntitiesAreTracks(input);
    var i := EntityOfTrack(SortedSeq(TrackIds(Admitted(input))), TrackIds(Admitted(input)), BuiltFrom(input).entities, e);
    EpistemicMeans(input, e.entityId);
  }

  lemma TrackHasEntity(input: Input, trackId: string) returns (e: Entity)
    requires WindowError(input).None? && trackId in TrackIds(Admitted(input))
    ensures e in BuiltFrom(input).entities && e.entityId == trackId
  {
    EntitiesAreTracks(input);
    var trackIds := SortedSeq(TrackIds(Admitted(input)));
    var i :| 0 <= i < |trackIds| && trackIds[i] == trackId;
    e := BuiltFrom(input).entities[i];
  }

  lemma ContradictionNames(admitted: seq<Observation>, assurance: seq<Assurance>, id: string, c: Contradiction)
    requires c in ContradictionMaker(admitted, assurance)(id)
    ensures c.entityId == id && c.observationIds == SortedSeq(RecordedIds(CandidatesFor(admitted, id), Assured(assurance, id)))
  {
  }

  lemma ContradictionOfTrackIs(input: Input, c: Contradiction)
    requires WindowError(input).None? && c in BuiltFrom(input).contradictions
    ensures c.entityId in TrackIds(Admitted(input)) && Contradictory(input, c.entityId)
    ensures c.observationIds == SortedSeq(RecordedIds(CandidatesFor(Admitted(input), c.entityId), Assured(input.assurance, c.entityId)))
  {
    var trackIds, make := SortedSeq(TrackIds(Admitted(input))), ContradictionMaker(Admitted(input), input.assurance);
    assert BuiltFrom(input).contradictions == FlatMap(trackIds, make);
    var id :| id in trackIds && c in make(id);
    ContradictionNames(Admitted(input), input.assurance, id, c);
    RecordsContradiction(input, id);
  }

  lemma TrackHasContradiction(input: Input, id: string)
    requires WindowError(input).None? && id in TrackIds(Admitted(input)) && Contradictory(input, id)
    ensures exists c | c in BuiltFrom(input).contradictions :: c.entityId == id
  {
    RecordsContradiction(input, id);
    var trackIds, make := SortedSeq(TrackIds(Admitted(input))), ContradictionMaker(Admitted(input), input.assurance);
    assert BuiltFrom(input).contradictions == FlatMap(trackIds, make);
    assert make(id)[0] in make(id);
    ContradictionNames(Admitted(input), input.assurance, id, make(id)[0]);
  }

  /** A contradiction is recorded for exactly the entities that are in one. */
  lemma RecordedExactlyWhenInContradiction(input: Input, e: Entity)
    requires Build(input).Success? && e in Build(input).value.entities
    ensures e.epistemicState == InContradiction <==> exists c | c in Build(input).value.contradictions :: c.entityId == e.entityId
  {
    BuildSucceeds(input);
    EntityOfTrackIs(input, e);
    if Contradictory(input, e.entityId) {
      TrackHasContradiction(input, e.entityId);
    }
    if c :| c in BuiltFrom(input).contradictions && c.entityId == e.entityId {
      ContradictionOfTrackIs(input, c);
    }
  }

  lemma SortedSeqInjective(a: set<string>, b: set<string>)
    ensures SortedSeq(a) == SortedSeq(b) <==> a == b
  {
    if SortedSeq(a) == SortedSeq(b) {
      forall id ensures id in a <==> id in b {
        assert id in SortedSeq(a) <==> id in SortedSeq(b);
      }
    }
  }

  /** Every admitted observation that reports the track disagrees with its source. */
  ghost predicate AllDisagree(input: Input, trackId: string) {
    forall o, s | ReportsTrack(input, trackId, o, s) :: exists p, s', t :: SourceDisagrees(input, trackId, o, p, s', t)
  }

  lemma AllDivergeMeans(input: Input, trackId: string)
    requires IdsDistinct(input.observations)
    ensures var candidates := CandidatesFor(Admitted(input), trackId);
      DivergentIds(candidates) == EnvelopeIds(candidates) <==> AllDisagree(input, trackId)
  {
    var candidates := CandidatesFor(Admitted(input), trackId);
    CandidateMembers(Admitted(input), trackId);
    if DivergentIds(candidates) == EnvelopeIds(candidates) {
      forall o, s | ReportsTrack(input, trackId, o, s) ensures exists p, s', t :: SourceDisagrees(input, trackId, o, p, s', t) {
        assert Candidate(o, s) in candidates;
        assert o.observationId in DivergentIds(candidates);
        DivergentIdsMean(input, trackId, o.observationId);
        var o', p, s', t :| SourceDisagrees(input, trackId, o', p, s', t) && o'.observationId == o.observationId;
        SameIdSameEnvelope(input.observations, o, o');
      }
    }
    if AllDisagree(input, trackId) {
      forall id | id in EnvelopeIds(candidates) ensures id in DivergentIds(candidates) {
        var c :| c in candidates && c.envelope.observationId == id;
        assert ReportsTrack(input, trackId, c.envelope, c.track);
        var p, s, t :| SourceDisagrees(input, trackId, c.envelope, p, s, t);
        DivergentIdsMean(input, trackId, id);
      }
      assert DivergentIds(candidates) == EnvelopeIds(candidates);
    }
  }

  /** The state lists a track's contradictory observations twice, in its entity and among the
      contradictions.  The lists agree exactly unless the track is contradicted in both ways at once
      and some report of it agrees with its source. */
  lemma TwoAccountsOfAContradiction(input: Input, e: Entity, c: Contradiction)
    requires Build(input).Success? && e in Build(input).value.entities && c in Build(input).value.contradictions && c.entityId == e.entityId
    ensures c.observationIds == e.contradicting <==>
      !(Disagreement(input, e.entityId) && Assured(input.assurance, e.entityId) == Some(Contradicted)) || AllDisagree(input, e.entityId)
  {
    var candidates, assured := CandidatesFor(Admitted(input), e.entityId), Assured(input.assurance, e.entityId);
    BuildSucceeds(input);
    EntityOfTrackIs(input, e);
    ContradictionOfTrackIs(input, c);
    SortedSeqInjective(RecordedIds(candidates, assured), ContradictingIds(candidates, assured));
    DivergenceMeans(input, e.entityId);
    AllDivergeMeans(input, e.entityId);
  }

  lemma EntityAndContradiction(input: Input, trackId: string) returns (e: Entity, c: Contradiction)
    requires Build(input).Success? && Contradictory(input, trackId) && trackId in TrackIds(Admitted(input))
    ensures e in Build(input).value.entities && c in Build(input).value.contradictions && c.entityId == e.entityId == trackId
  {
    BuildSucceeds(input);
    e := TrackHasEntity(input, trackId);
    TrackHasContradiction(input, trackId);
    c :| c in Build(input).value.contradictions && c.entityId == trackId;
  }

  /** One camera reports a car in two lanes, another camera agrees with itself, and assurance says
      CONTRADICTED: the entity leaves out the second camera, the list of contradictions does not. */
  lemma AccountsDiffer(text: string) returns (input: Input, e: Entity, c: Contradiction)
    ensures input == InputOf([CameraReport("o1", "cam", text, "1"), CameraReport("o2", "cam", text, "2"), CameraReport("o3", "eye", text, "1")],
                             [Assurance("car", Contradicted, true)])
    ensures Build(input).Success? && e in Build(input).value.entities && c in Build(input).value.contradictions && c.entityId == e.entityId
    ensures c.observationIds != e.contradicting
  {
    var x, y, z := CameraReport("o1", "cam", text, "1"), CameraReport("o2", "cam", text, "2"), CameraReport("o3", "eye", text, "1");
    var assurance := [Assurance("car", Contradicted, true)];
    input := InputOf([x, y, z], assurance);
    assert "o1"[1] != "o2"[1] && "o1"[1] != "o3"[1] && "o2"[1] != "o3"[1] && "cam"[0] != "eye"[0] && "1"[0] != "2"[0];
    AssuranceErrorMeans(assurance);
    CameraReportIsAdmitted("o1", "cam", text, "1");
    CameraReportIsAdmitted("o2", "cam", text, "2");
    CameraReportIsAdmitted("o3", "eye", text, "1");
    ReportsBuild([x, y, z], assurance);
    OneSideAgrees(input, x, y, z);
    e, c := EntityAndContradiction(input, "car");
    TwoAccountsOfAContradiction(input, e, c);
  }

  lemma OneSideAgrees(input: Input, x: Observation, y: Observation, z: Observation)
    requires Build(input).Success? && input.observations == [x, y, z] && x.sourceId == y.sourceId != z.sourceId && x.capturedAt == y.capturedAt
    requires Usable(x, input.now) && Usable(y, input.now) && Usable(z, input.now)
    requires TrackIn("car", "1") in TracksOf(x) && TrackIn("car", "2") in TracksOf(y) && TracksOf(z) == [TrackIn("car", "1")]
    requires Assured(input.assurance, "car") == Some(Contradicted)
    ensures "car" in TrackIds(Admitted(input)) && Contradictory(input, "car") && Disagreement(input, "car") && !AllDisagree(input, "car")
  {
    assert "1"[0] != "2"[0];
    DifferentLanesDiverge("1", "2");
    assert SourceDisagrees(input, "car", x, y, TrackIn("car", "1"), TrackIn("car", "2"));
    DivergenceMeans(input, "car");
    assert x in Admitted(input) && TrackIn("car", "1").trackId in TrackIds(Admitted(input));
    AloneAgrees(input, x, y, z, "car");
    assert ReportsTrack(input, "car", z, TrackIn("car", "1"));
  }

  lemma AloneAgrees(input: Input, x: Observation, y: Observation, z: Observation, trackId: string)
    requires input.observations == [x, y, z] && x.sourceId != z.sourceId && y.sourceId != z.sourceId && exists t :: TracksOf(z) == [t]
    ensures forall p, s, t :: !SourceDisagrees(input, trackId, z, p, s, t)
  {
  }
}
