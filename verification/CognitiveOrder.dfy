/** The order in which observations and assurance results arrive does not matter to the state built
    from them. */
module CognitiveOrder {
  import opened Wrappers
  import opened Sequences
  import opened StableSort
  import opened TextOrder
  import opened Perception
  import opened CognitiveState

  ghost predicate SameElements<T(!new)>(s: seq<T>, t: seq<T>) {
    forall x :: x in s <==> x in t
  }

  // ---------- the newest candidate ----------

  lemma NewestFirstIsTotal()
    ensures TotalPreorder(NewestFirst)
  {
    forall x, y ensures NewestFirst(x, y) || NewestFirst(y, x) {
      LeqTotal(x.envelope.sourceId, y.envelope.sourceId);
      LeqTotal(x.envelope.observationId, y.envelope.observationId);
    }
    forall x, y, z | NewestFirst(x, y) && NewestFirst(y, z) ensures NewestFirst(x, z) {
      NewestFirstTransitive(x, y, z);
    }
  }

  lemma NewestFirstTransitive(x: Candidate, y: Candidate, z: Candidate)
    requires NewestFirst(x, y) && NewestFirst(y, z)
    ensures NewestFirst(x, z)
  {
    if Instant(x) == Instant(y) == Instant(z) {
      var a, b, c := x.envelope.sourceId, y.envelope.sourceId, z.envelope.sourceId;
      if a == b == c {
        LeqTransitive(x.envelope.observationId, y.envelope.observationId, z.envelope.observationId);
      } else {
        LeqTotal(a, b);
        LeqTotal(b, c);
        LeqTotal(a, c);
        if a != b && b != c {
          LeqTransitive(a, b, c);
        }
      }
    }
  }

  lemma TiesShareId(x: Candidate, y: Candidate)
    requires NewestFirst(x, y) && NewestFirst(y, x)
    ensures x.envelope.observationId == y.envelope.observationId
  {
    LeqTotal(x.envelope.sourceId, y.envelope.sourceId);
    LeqTotal(x.envelope.observationId, y.envelope.observationId);
  }

  lemma {:induction false} FilterAll<T(!new)>(s: seq<T>, keep: T -> bool)
    ensures (forall x | x in s :: keep(x)) ==> Filter(s, keep) == s
    ensures (forall x | x in s :: !keep(x)) ==> Filter(s, keep) == []
  {
    if s != [] {
      FilterAll(s[..|s| - 1], keep);
      assert s == s[..|s| - 1] + [s[|s| - 1]];
    }
  }

  lemma FilterFirst<T(!new)>(s: seq<T>, keep: T -> bool)
    requires s != [] && keep(s[0])
    ensures Filter(s, keep) != [] && Filter(s, keep)[0] == s[0]
  {
    assert s == [s[0]] + s[1..];
    FilterAppend([s[0]], s[1..], keep);
  }

  /** Of one envelope's candidates for a track, all tie with x or none does. */
  lemma TiesInEnvelope(o: Observation, trackId: string, x: Candidate)
    requires o.observationId == x.envelope.observationId ==> o == x.envelope
    ensures Filter(CandidatesIn(o, trackId), Ties(x, NewestFirst)) == if o == x.envelope then CandidatesIn(o, trackId) else []
  {
    TracksNamedMembers(o, TracksOf(o), trackId);
    FilterAll(CandidatesIn(o, trackId), Ties(x, NewestFirst));
    if o == x.envelope {
      LeqTotal(o.observationId, o.observationId);
      forall c | c in CandidatesIn(o, trackId) ensures Ties(x, NewestFirst)(c) {
        assert c.envelope == x.envelope;
        assert NewestFirst(x, c) && NewestFirst(c, x);
      }
    } else {
      forall c | c in CandidatesIn(o, trackId) ensures !Ties(x, NewestFirst)(c) {
        if Ties(x, NewestFirst)(c) {
          TiesShareId(x, c);
        }
      }
    }
  }

  lemma {:induction false} NoTiesWithout(admitted: seq<Observation>, trackId: string, x: Candidate)
    requires forall o | o in admitted :: o.observationId != x.envelope.observationId
    ensures Filter(CandidatesFor(admitted, trackId), Ties(x, NewestFirst)) == []
    decreases |admitted|
  {
    if admitted != [] {
      var front, last := admitted[..|admitted| - 1], admitted[|admitted| - 1];
      assert last in admitted;
      NoTiesWithout(front, trackId, x);
      TiesInEnvelope(last, trackId, x);
      FilterAppend(CandidatesFor(front, trackId), CandidatesIn(last, trackId), Ties(x, NewestFirst));
    }
  }

  /** The candidates that tie with x are those of x's own envelope, in the envelope's order. */
  lemma {:induction false} TiesAreOneEnvelope(admitted: seq<Observation>, trackId: string, x: Candidate)
    requires IdsDistinct(admitted) && x.envelope in admitted
    ensures Filter(CandidatesFor(admitted, trackId), Ties(x, NewestFirst)) == CandidatesIn(x.envelope, trackId)
    decreases |admitted|
  {
    var front, last := admitted[..|admitted| - 1], admitted[|admitted| - 1];
    FilterAppend(CandidatesFor(front, trackId), CandidatesIn(last, trackId), Ties(x, NewestFirst));
    SameIdSameEnvelopeIn(admitted, last, x.envelope);
    TiesInEnvelope(last, trackId, x);
    if last == x.envelope {
      forall o | o in front ensures o.observationId != last.observationId {}
      NoTiesWithout(front, trackId, x);
    } else {
      TiesAreOneEnvelope(front, trackId, x);
    }
  }

  lemma SameIdSameEnvelopeIn(admitted: seq<Observation>, x: Observation, y: Observation)
    requires IdsDistinct(admitted) && x in admitted && y in admitted
    ensures x.observationId == y.observationId ==> x == y
  {
    if x.observationId == y.observationId {
      SameIdSameEnvelope(admitted, x, y);
    }
  }

  /** The newest candidate heads its own envelope's candidates. */
  lemma NewestHeadsItsEnvelope(admitted: seq<Observation>, trackId: string)
    requires IdsDistinct(admitted) && CandidatesFor(admitted, trackId) != []
    ensures var x := Newest(CandidatesFor(admitted, trackId));
      && x in CandidatesFor(admitted, trackId)
      && CandidatesIn(x.envelope, trackId) != [] && x == CandidatesIn(x.envelope, trackId)[0]
      && (forall c | c in CandidatesFor(admitted, trackId) :: NewestFirst(x, c))
  {
    var candidates := CandidatesFor(admitted, trackId);
    var sorted := Sort(candidates, NewestFirst);
    SortPermutes(candidates, NewestFirst);
    var x := sorted[0];
    NewestFirstIsTotal();
    SortSorts(candidates, NewestFirst);
    assert x in candidates;
    forall c | c in candidates ensures NewestFirst(x, c) {
      assert c in sorted;
      FirstIsLeast(sorted, NewestFirst, c);
    }
    SortIsStable(candidates, x, NewestFirst);
    assert Ties(x, NewestFirst)(x);
    FilterFirst(sorted, Ties(x, NewestFirst));
    CandidateMembers(admitted, trackId);
    TiesAreOneEnvelope(admitted, trackId, x);
  }

  lemma SameNewest(a: seq<Observation>, b: seq<Observation>, trackId: string)
    requires SameElements(a, b) && IdsDistinct(a) && IdsDistinct(b)
    requires CandidatesFor(a, trackId) != [] && CandidatesFor(b, trackId) != []
    ensures Newest(CandidatesFor(a, trackId)) == Newest(CandidatesFor(b, trackId))
  {
    NewestHeadsItsEnvelope(a, trackId);
    NewestHeadsItsEnvelope(b, trackId);
    var x, y := Newest(CandidatesFor(a, trackId)), Newest(CandidatesFor(b, trackId));
    CandidateMembers(a, trackId);
    CandidateMembers(b, trackId);
    assert NewestFirst(x, y) && NewestFirst(y, x);
    TiesShareId(x, y);
    SameIdSameEnvelope(a, x.envelope, y.envelope);
  }

  lemma SameIdSameEnvelope(admitted: seq<Observation>, x: Observation, y: Observation)
    requires IdsDistinct(admitted) && x in admitted && y in admitted && x.observationId == y.observationId
    ensures x == y
  {
    var i :| 0 <= i < |admitted| && admitted[i] == x;
    var j :| 0 <= j < |admitted| && admitted[j] == y;
    if i < j {
    } else if j < i {
    }
  }

  // ---------- the other parts of an entity ----------

  lemma {:induction false} ValidUntilIsLeast(candidates: seq<Candidate>, limit: int)
    ensures var until := EntityValidUntil(candidates, limit);
      && until <= limit
      && (forall c | c in candidates :: until <= Instant(c) + c.envelope.freshnessTtlMs)
      && (until == limit || exists c | c in candidates :: until == Instant(c) + c.envelope.freshnessTtlMs)
  {
    if candidates != [] {
      var front, last := candidates[..|candidates| - 1], candidates[|candidates| - 1];
      ValidUntilIsLeast(front, limit);
      assert candidates == front + [last];
      if c :| c in front && EntityValidUntil(front, limit) == Instant(c) + c.envelope.freshnessTtlMs {
        assert c in candidates;
      }
      assert last in candidates;
    }
  }

  lemma SameCandidateSets(a: seq<Candidate>, b: seq<Candidate>)
    requires SameElements(a, b)
    ensures DivergentIds(a) == DivergentIds(b) && EnvelopeIds(a) == EnvelopeIds(b) && NestedIds(a) == NestedIds(b)
  {
    forall c ensures HasDivergence(a, c) <==> HasDivergence(b, c) {
      if HasDivergence(a, c) {
        var d :| d in a && Diverge(c, d);
        assert d in b;
      }
      if HasDivergence(b, c) {
        var d :| d in b && Diverge(c, d);
        assert d in a;
      }
    }
  }

  lemma SameValidUntil(a: seq<Candidate>, b: seq<Candidate>, limit: int)
    requires SameElements(a, b)
    ensures EntityValidUntil(a, limit) == EntityValidUntil(b, limit)
  {
    ValidUntilIsLeast(a, limit);
    ValidUntilIsLeast(b, limit);
  }

  lemma SameEntityFrom(trackId: string, a: seq<Candidate>, b: seq<Candidate>, assured: Option<AssuranceDecision>, limit: int)
    requires a != [] && b != [] && Newest(a) == Newest(b)
    requires DivergentIds(a) == DivergentIds(b) && EnvelopeIds(a) == EnvelopeIds(b) && NestedIds(a) == NestedIds(b)
    requires EntityValidUntil(a, limit) == EntityValidUntil(b, limit)
    ensures EntityFor(trackId, a, assured, limit) == EntityFor(trackId, b, assured, limit)
    ensures ContradictionsFor(trackId, a, assured) == ContradictionsFor(trackId, b, assured)
  {
  }

  lemma SameCandidates(a: seq<Observation>, b: seq<Observation>, trackId: string)
    requires SameElements(a, b)
    ensures SameElements(CandidatesFor(a, trackId), CandidatesFor(b, trackId))
    ensures CandidatesFor(a, trackId) != [] ==> CandidatesFor(b, trackId) != []
  {
    CandidateMembers(a, trackId);
    CandidateMembers(b, trackId);
    if CandidatesFor(a, trackId) != [] {
      assert CandidatesFor(a, trackId)[0] in CandidatesFor(b, trackId);
    }
  }

  lemma SameEntity(a: seq<Observation>, b: seq<Observation>, trackId: string, assured: Option<AssuranceDecision>, limit: int)
    requires SameElements(a, b) && IdsDistinct(a) && IdsDistinct(b) && CandidatesFor(a, trackId) != []
    ensures CandidatesFor(b, trackId) != []
    ensures EntityFor(trackId, CandidatesFor(a, trackId), assured, limit) == EntityFor(trackId, CandidatesFor(b, trackId), assured, limit)
    ensures ContradictionsFor(trackId, CandidatesFor(a, trackId), assured) == ContradictionsFor(trackId, CandidatesFor(b, trackId), assured)
  {
    SameCandidates(a, b, trackId);
    SameNewest(a, b, trackId);
    SameCandidateSets(CandidatesFor(a, trackId), CandidatesFor(b, trackId));
    SameValidUntil(CandidatesFor(a, trackId), CandidatesFor(b, trackId), limit);
    SameEntityFrom(trackId, CandidatesFor(a, trackId), CandidatesFor(b, trackId), assured, limit);
  }

  // ---------- assurance results ----------

  ghost predicate BindingsDistinct(results: seq<Assurance>) {
    forall i, j | 0 <= i < j < |results| :: results[i].objectBinding != results[j].objectBinding
  }

  lemma BindingsExtend(front: seq<Assurance>, last: Assurance)
    ensures BindingsDistinct(front + [last]) <==> BindingsDistinct(front) && !exists r | r in front :: r.objectBinding == last.objectBinding
  {
    var results := front + [last];
    if BindingsDistinct(results) {
      forall r | r in front ensures r.objectBinding != last.objectBinding {
        var i :| 0 <= i < |front| && front[i] == r;
        assert results[i].objectBinding != results[|front|].objectBinding;
      }
      forall i, j | 0 <= i < j < |front| ensures front[i].objectBinding != front[j].objectBinding {
        assert results[i].objectBinding != results[j].objectBinding;
      }
    }
  }

  lemma {:induction false} AssuranceErrorMeans(results: seq<Assurance>)
    ensures AssuranceError(results).None? <==> BindingsDistinct(results) && forall r | r in results :: r.authorityIsNone
  {
    if results != [] {
      var front, last := results[..|results| - 1], results[|results| - 1];
      AssuranceErrorMeans(front);
      BindingsExtend(front, last);
      assert results == front + [last];
    }
  }

  lemma {:induction false} AssuredMeans(results: seq<Assurance>, trackId: string)
    requires BindingsDistinct(results)
    ensures Assured(results, trackId).Some? <==> exists r | r in results :: r.objectBinding == trackId
    ensures forall r | r in results && r.objectBinding == trackId :: Assured(results, trackId) == Some(r.decision)
  {
    if results != [] {
      var front, last := results[..|results| - 1], results[|results| - 1];
      AssuredMeans(front, trackId);
      assert results == front + [last];
      assert last in results;
    }
  }

  lemma SameAssured(a: seq<Assurance>, b: seq<Assurance>, trackId: string)
    requires SameElements(a, b) && BindingsDistinct(a) && BindingsDistinct(b)
    ensures Assured(a, trackId) == Assured(b, trackId)
  {
    AssuredMeans(a, trackId);
    AssuredMeans(b, trackId);
    if Assured(a, trackId).Some? {
      var r :| r in a && r.objectBinding == trackId;
      assert r in b;
    }
  }

  // ---------- errors ----------

  lemma {:induction false} TracksErrorMeans(tracks: seq<Track>)
    ensures TracksError(tracks).None? <==> forall track | track in tracks :: TrackFault(track).None?
  {
    if tracks != [] {
      TracksErrorMeans(tracks[..|tracks| - 1]);
      assert tracks == tracks[..|tracks| - 1] + [tracks[|tracks| - 1]];
      assert tracks[|tracks| - 1] in tracks;
    }
  }

  lemma {:induction false} AdmittedErrorMeans(admitted: seq<Observation>)
    ensures AdmittedError(admitted).None? <==> forall o | o in admitted :: TracksError(TracksOf(o)).None?
  {
    if admitted != [] {
      AdmittedErrorMeans(admitted[..|admitted| - 1]);
      assert admitted == admitted[..|admitted| - 1] + [admitted[|admitted| - 1]];
      assert admitted[|admitted| - 1] in admitted;
    }
  }

  // ---------- permutations ----------

  lemma PermutedIds(a: seq<Observation>, b: seq<Observation>)
    requires multiset(a) == multiset(b) && IdsDistinct(a)
    ensures IdsDistinct(b)
  {
    DistinctPermuted(a, b);
    StableSort.SameMembers(a, b);
    forall i, j | 0 <= i < j < |b| ensures b[i].observationId != b[j].observationId {
      if b[i].observationId == b[j].observationId {
        assert b[i] in a && b[j] in a;
        SameIdSameEnvelope(a, b[i], b[j]);
        assert false;
      }
    }
  }

  lemma PermutedBindings(a: seq<Assurance>, b: seq<Assurance>)
    requires multiset(a) == multiset(b) && BindingsDistinct(a)
    ensures BindingsDistinct(b)
  {
    DistinctPermuted(a, b);
    StableSort.SameMembers(a, b);
    forall i, j | 0 <= i < j < |b| ensures b[i].objectBinding != b[j].objectBinding {
      assert b[i] in a && b[j] in a;
      var k :| 0 <= k < |a| && a[k] == b[i];
      var l :| 0 <= l < |a| && a[l] == b[j];
      assert k != l;
    }
  }

  lemma {:induction false} FilteredIdsDistinct(s: seq<Observation>, keep: Observation -> bool)
    requires IdsDistinct(s)
    ensures IdsDistinct(Filter(s, keep))
  {
    if s != [] {
      var front, last := s[..|s| - 1], s[|s| - 1];
      FilteredIdsDistinct(front, keep);
      forall o | o in Filter(front, keep) ensures o.observationId != last.observationId {
        assert o in front;
      }
    }
  }

  // ---------- the theorem ----------

  lemma SameTrack(trackId: string, a: Input, b: Input, limit: int)
    requires SameElements(Admitted(a), Admitted(b)) && IdsDistinct(Admitted(a)) && IdsDistinct(Admitted(b))
    requires SameElements(a.assurance, b.assurance) && BindingsDistinct(a.assurance) && BindingsDistinct(b.assurance)
    requires CandidatesFor(Admitted(a), trackId) != []
    ensures CandidatesFor(Admitted(b), trackId) != []
    ensures EntityMaker(Admitted(a), a.assurance, limit)(trackId) == EntityMaker(Admitted(b), b.assurance, limit)(trackId)
    ensures ContradictionMaker(Admitted(a), a.assurance)(trackId) == ContradictionMaker(Admitted(b), b.assurance)(trackId)
  {
    SameAssured(a.assurance, b.assurance, trackId);
    SameEntity(Admitted(a), Admitted(b), trackId, Assured(a.assurance, trackId), limit);
  }

  lemma SameEntities(trackIds: seq<string>, a: Input, b: Input, limit: int)
    requires SameElements(Admitted(a), Admitted(b)) && IdsDistinct(Admitted(a)) && IdsDistinct(Admitted(b))
    requires SameElements(a.assurance, b.assurance) && BindingsDistinct(a.assurance) && BindingsDistinct(b.assurance)
    requires forall id | id in trackIds :: CandidatesFor(Admitted(a), id) != [] && CandidatesFor(Admitted(b), id) != []
    ensures MapSeq(trackIds, EntityMaker(Admitted(a), a.assurance, limit)) == MapSeq(trackIds, EntityMaker(Admitted(b), b.assurance, limit))
    ensures FlatMap(trackIds, ContradictionMaker(Admitted(a), a.assurance)) == FlatMap(trackIds, ContradictionMaker(Admitted(b), b.assurance))
  {
    forall id | id in trackIds
      ensures EntityMaker(Admitted(a), a.assurance, limit)(id) == EntityMaker(Admitted(b), b.assurance, limit)(id)
      ensures ContradictionMaker(Admitted(a), a.assurance)(id) == ContradictionMaker(Admitted(b), b.assurance)(id)
    {
      SameTrack(id, a, b, limit);
    }
    MapSame(trackIds, EntityMaker(Admitted(a), a.assurance, limit), EntityMaker(Admitted(b), b.assurance, limit));
    FlatMapSame(trackIds, ContradictionMaker(Admitted(a), a.assurance), ContradictionMaker(Admitted(b), b.assurance));
  }

  /** b is a with its observations and its assurance results in another order. */
  ghost predicate Reordered(a: Input, b: Input) {
    && b == a.(observations := b.observations, assurance := b.assurance)
    && multiset(a.observations) == multiset(b.observations)
    && multiset(a.assurance) == multiset(b.assurance)
  }

  lemma ReorderedMembers(a: Input, b: Input)
    requires Reordered(a, b)
    ensures SameElements(a.observations, b.observations) && SameElements(a.assurance, b.assurance)
    ensures SameElements(Admitted(a), Admitted(b)) && SameElements(Excluded(a), Excluded(b))
    ensures IdsDistinct(a.observations) <==> IdsDistinct(b.observations)
    ensures BindingsDistinct(a.assurance) <==> BindingsDistinct(b.assurance)
    ensures AdmittedError(Admitted(a)).None? <==> AdmittedError(Admitted(b)).None?
    ensures AssuranceError(a.assurance).None? <==> AssuranceError(b.assurance).None?
  {
    StableSort.SameMembers(a.observations, b.observations);
    StableSort.SameMembers(a.assurance, b.assurance);
    if IdsDistinct(a.observations) {
      PermutedIds(a.observations, b.observations);
    }
    if IdsDistinct(b.observations) {
      PermutedIds(b.observations, a.observations);
    }
    if BindingsDistinct(a.assurance) {
      PermutedBindings(a.assurance, b.assurance);
    }
    if BindingsDistinct(b.assurance) {
      PermutedBindings(b.assurance, a.assurance);
    }
    AssuranceErrorMeans(a.assurance);
    AssuranceErrorMeans(b.assurance);
    AdmittedErrorMeans(Admitted(a));
    AdmittedErrorMeans(Admitted(b));
  }

  lemma SameBuilt(a: Input, b: Input)
    requires Reordered(a, b) && WindowError(a).None?
    requires IdsDistinct(a.observations) && IdsDistinct(b.observations) && BindingsDistinct(a.assurance) && BindingsDistinct(b.assurance)
    ensures BuiltFrom(a) == BuiltFrom(b)
  {
    ReorderedMembers(a, b);
    FilteredIdsDistinct(a.observations, UsableAt(a.now));
    FilteredIdsDistinct(b.observations, UsableAt(b.now));
    SameSets(a, b);
    EveryTrackHasCandidates(Admitted(a));
    EveryTrackHasCandidates(Admitted(b));
    SameEntities(SortedSeq(TrackIds(Admitted(a))), a, b, a.validUntil.Parse().value);
  }

  lemma SameSets(a: Input, b: Input)
    requires SameElements(Admitted(a), Admitted(b)) && SameElements(Excluded(a), Excluded(b))
    ensures TrackIds(Admitted(a)) == TrackIds(Admitted(b)) && Ids(Admitted(a)) == Ids(Admitted(b)) && Ids(Excluded(a)) == Ids(Excluded(b))
  {
  }

  /** Nothing about the input is refused. */
  ghost predicate Buildable(input: Input) {
    && WindowError(input).None?
    && IdsDistinct(input.observations)
    && AssuranceError(input.assurance).None?
    && AdmittedError(Admitted(input)).None?
  }

  lemma BuildSucceeds(input: Input)
    ensures Build(input).Success? <==> Buildable(input)
    ensures Buildable(input) ==> Build(input) == Success(BuiltFrom(input))
  {
  }

  lemma BuildableTogether(a: Input, b: Input)
    requires Reordered(a, b)
    ensures Buildable(a) <==> Buildable(b)
  {
    assert WindowError(a) == WindowError(b);
    ReorderedMembers(a, b);
  }

  lemma BuildableSame(a: Input, b: Input)
    requires Reordered(a, b) && Buildable(a) && Buildable(b)
    ensures BuiltFrom(a) == BuiltFrom(b)
  {
    AssuranceErrorMeans(a.assurance);
    AssuranceErrorMeans(b.assurance);
    SameBuilt(a, b);
  }

  /** Reordering the observations and the assurance results changes nothing of what is built, and
      neither makes a build fail nor rescues one. */
  lemma OrderDoesNotMatter(a: Input, b: Input)
    requires Reordered(a, b)
    ensures Build(a).Success? <==> Build(b).Success?
    ensures Build(a).Success? ==> Build(a) == Build(b)
  {
    BuildableTogether(a, b);
    BuildSucceeds(a);
    BuildSucceeds(b);
    if Buildable(a) {
      BuildableSame(a, b);
    }
  }
}
