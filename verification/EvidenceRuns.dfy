/** What every interleaving of uploads, completions and downloads keeps. */
module EvidenceRuns {
  import opened Wrappers
  import opened EvidenceVault

  /** What a completion has established. */
  ghost predicate CompletionInv(v: Vault, c: Completion) {
    && c.id in v.rows
    && c.record.status == PendingUpload && c.at <= c.record.uploadExpiresAt
    && c.record.declared == v.rows[c.id].declared && c.record.uploadExpiresAt == v.rows[c.id].uploadExpiresAt
    && (c.inspected.Some? ==> c.inspected.value == c.record.declared)
    && (c.phase == Begun || c.phase == Inspected ==> c.outcome.None?)
    && (c.phase == Inspected || c.phase == Scanned || c.phase == Copied ==> c.inspected.Some?)
    && (c.phase == Scanned || c.phase == Copied ==> c.outcome.Some?)
    && (c.phase == Copied ==> c.outcome.value.Rejected? && c.id in v.copies)
  }

  /** A completion of this record that found this outcome, having verified the declared metadata. */
  ghost predicate CompletedWith(v: Vault, id: string, outcome: Outcome, at: int) {
    exists cid :: cid in v.completions && Found(v.completions[cid], id, outcome, at) && v.completions[cid].inspected == Some(v.completions[cid].record.declared)
  }

  predicate Found(c: Completion, id: string, outcome: Outcome, at: int) {
    c.id == id && c.outcome == Some(outcome) && c.at == at
  }

  ghost predicate RowInv(v: Vault, id: string)
    requires id in v.rows
  {
    var row := v.rows[id];
    match row.status
    case PendingUpload => row.actualSize.None? && row.verified.None? && row.completedAt.None? && row.reason.None?
    case Preserved =>
      && row.actualSize == Some(row.declared.sizeBytes) && row.verified == Some(row.declared.checksum) && row.reason.None?
      && row.completedAt.Some? && row.completedAt.value <= row.uploadExpiresAt
      && CompletedWith(v, id, Clean, row.completedAt.value)
    case Quarantined =>
      && row.actualSize.None? && row.verified.None? && row.reason.Some?
      && row.completedAt.Some? && row.completedAt.value <= row.uploadExpiresAt
      && CompletedWith(v, id, Rejected(row.reason.value), row.completedAt.value)
      && id in v.copies
  }

  ghost predicate Bounded(row: Record) {
    && 1 <= row.declared.sizeBytes <= MAX_SIZE_BYTES && row.declared.contentType in ALLOWED_CONTENT_TYPES
    && row.createdAt < row.retainUntil <= row.createdAt + RETENTION_MS
    && row.createdAt < row.uploadExpiresAt <= row.createdAt + MAX_UPLOAD_TTL_MS
  }

  ghost predicate RowsInv(v: Vault) {
    forall id | id in v.rows :: RowInv(v, id) && Bounded(v.rows[id])
  }

  ghost predicate CompletionsInv(v: Vault) {
    forall cid | cid in v.completions :: CompletionInv(v, v.completions[cid])
  }

  ghost predicate DownloadsInv(v: Vault) {
    && (forall did | did in v.downloads :: var d := v.downloads[did]; d.id in v.rows && d.record.status == Preserved && v.rows[d.id] == d.record)
    && (forall did | did in v.returned :: did in v.downloads)
  }

  ghost predicate Inv(v: Vault) {
    RowsInv(v) && CompletionsInv(v) && DownloadsInv(v)
  }

  /** A row is changed only by leaving PENDING_UPLOAD, and keeps its metadata then. */
  ghost predicate MayBecome(before: Record, after: Record) {
    && (before.status != PendingUpload ==> after == before)
    && after.declared == before.declared && after.uploadExpiresAt == before.uploadExpiresAt && after.retainUntil == before.retainUntil
    && after.roadEventId == before.roadEventId && after.createdBy == before.createdBy && after.createdAt == before.createdAt
  }

  /** A completion keeps its identity, and what it has found out. */
  ghost predicate Continues(before: Completion, after: Completion) {
    && after.id == before.id && after.record == before.record && after.at == before.at
    && (before.inspected.Some? ==> after.inspected == before.inspected)
    && (before.outcome.Some? ==> after.outcome == before.outcome)
  }

  ghost predicate RowsAdvance(before: map<string, Record>, after: map<string, Record>) {
    forall id | id in before :: id in after && MayBecome(before[id], after[id])
  }

  ghost predicate CompletionsAdvance(before: map<nat, Completion>, after: map<nat, Completion>) {
    forall cid | cid in before :: cid in after && Continues(before[cid], after[cid])
  }

  ghost predicate Advances(before: Vault, after: Vault) {
    && RowsAdvance(before.rows, after.rows)
    && CompletionsAdvance(before.completions, after.completions)
    && before.copies.Keys <= after.copies.Keys
    && (forall did | did in before.downloads :: did in after.downloads && after.downloads[did] == before.downloads[did])
  }

  // ---------- carrying facts along ----------

  lemma CompletedStays(before: Vault, after: Vault, id: string, outcome: Outcome, at: int)
    requires Advances(before, after) && CompletedWith(before, id, outcome, at)
    ensures CompletedWith(after, id, outcome, at)
  {
    var cid :| cid in before.completions && Found(before.completions[cid], id, outcome, at)
      && before.completions[cid].inspected == Some(before.completions[cid].record.declared);
    assert Continues(before.completions[cid], after.completions[cid]);
    assert Found(after.completions[cid], id, outcome, at);
  }

  lemma SameRowStays(before: Vault, after: Vault, id: string)
    requires Advances(before, after) && id in before.rows && id in after.rows && after.rows[id] == before.rows[id] && RowInv(before, id)
    ensures RowInv(after, id)
  {
    var row := before.rows[id];
    if row.status == Preserved {
      CompletedStays(before, after, id, Clean, row.completedAt.value);
    }
    if row.status == Quarantined {
      CompletedStays(before, after, id, Rejected(row.reason.value), row.completedAt.value);
    }
  }

  /** A step that leaves the rows alone keeps what is known of them. */
  lemma SameRowsStay(before: Vault, after: Vault)
    requires Advances(before, after) && after.rows == before.rows && RowsInv(before)
    ensures RowsInv(after)
  {
    forall id | id in after.rows ensures RowInv(after, id) && Bounded(after.rows[id]) {
      SameRowStays(before, after, id);
    }
  }

  lemma CompletionStays(before: Vault, after: Vault, c: Completion)
    requires CompletionInv(before, c) && c.id in after.rows && before.copies.Keys <= after.copies.Keys
    requires after.rows[c.id].declared == before.rows[c.id].declared && after.rows[c.id].uploadExpiresAt == before.rows[c.id].uploadExpiresAt
    ensures CompletionInv(after, c)
  {
  }

  lemma CompletionsStay(before: Vault, after: Vault)
    requires Advances(before, after) && CompletionsInv(before) && after.completions == before.completions
    ensures CompletionsInv(after)
  {
    forall cid | cid in after.completions ensures CompletionInv(after, after.completions[cid]) {
      assert MayBecome(before.rows[before.completions[cid].id], after.rows[before.completions[cid].id]);
      CompletionStays(before, after, before.completions[cid]);
    }
  }

  lemma DownloadsStay(before: Vault, after: Vault)
    requires Advances(before, after) && DownloadsInv(before) && after.downloads == before.downloads && after.returned == before.returned
    ensures DownloadsInv(after)
  {
    forall did | did in after.downloads
      ensures after.downloads[did].id in after.rows && after.rows[after.downloads[did].id] == after.downloads[did].record
    {
      assert MayBecome(before.rows[before.downloads[did].id], after.rows[before.downloads[did].id]);
    }
  }

  /** Changing one completion well is a good step. */
  lemma CompletionStep(before: Vault, after: Vault, cid: nat)
    requires Inv(before) && cid in after.completions
    requires after.rows == before.rows && after.downloads == before.downloads && after.returned == before.returned
    requires after.completions == before.completions[cid := after.completions[cid]]
    requires before.copies.Keys <= after.copies.Keys
    requires CompletionInv(after, after.completions[cid])
    requires cid in before.completions ==> Continues(before.completions[cid], after.completions[cid])
    ensures Inv(after) && Advances(before, after)
  {
    SameRowsStay(before, after);
    forall other | other in after.completions ensures CompletionInv(after, after.completions[other]) {
      if other != cid {
        assert CompletionInv(before, before.completions[other]);
      }
    }
  }

  // ---------- each step keeps the invariant ----------

  lemma BeginIsGood(v: Vault, cid: nat, id: string, authorized: bool, now: int)
    requires Inv(v)
    ensures Inv(Begin(v, cid, id, authorized, now)) && Advances(v, Begin(v, cid, id, authorized, now))
  {
    if cid !in v.completions && MayBegin(v, id, authorized, now) {
      CompletionStep(v, Begin(v, cid, id, authorized, now), cid);
    }
  }

  lemma InspectIsGood(v: Vault, cid: nat)
    requires Inv(v)
    ensures Inv(Inspect(v, cid)) && Advances(v, Inspect(v, cid))
  {
    if cid in v.completions && v.completions[cid].phase == Begun {
      var c := v.completions[cid];
      assert CompletionInv(v, c);
      if InspectionError(v, c).Some? {
        FinishingIsValid(v, c, Finished(Failure(InspectionError(v, c).value)));
      }
      CompletionStays(v, Inspect(v, cid), Inspect(v, cid).completions[cid]);
      CompletionStep(v, Inspect(v, cid), cid);
    } else {
      SameAdvances(v, v);
    }
  }

  lemma ScanIsGood(v: Vault, cid: nat, outcome: Outcome)
    requires Inv(v)
    ensures Inv(Scan(v, cid, outcome)) && Advances(v, Scan(v, cid, outcome))
  {
    if cid in v.completions && v.completions[cid].phase == Inspected {
      assert CompletionInv(v, v.completions[cid]);
      CompletionStep(v, Scan(v, cid, outcome), cid);
    }
  }

  predicate MayCopy(v: Vault, cid: nat) {
    cid in v.completions && v.completions[cid].phase == Scanned && v.completions[cid].outcome != Some(Clean)
  }

  lemma CopiedIsValid(v: Vault, cid: nat, answer: CopyAnswer)
    requires MayCopy(v, cid) && CompletionInv(v, v.completions[cid])
    ensures var next := Copy(v, cid, answer);
      && next.completions == v.completions[cid := v.completions[cid].(phase := next.completions[cid].phase)]
      && CompletionInv(next, next.completions[cid])
  {
  }

  lemma CopyIsGood(v: Vault, cid: nat, answer: CopyAnswer)
    requires Inv(v)
    ensures Inv(Copy(v, cid, answer)) && Advances(v, Copy(v, cid, answer))
  {
    if MayCopy(v, cid) {
      assert CompletionInv(v, v.completions[cid]);
      CopiedIsValid(v, cid, answer);
      CompletionStep(v, Copy(v, cid, answer), cid);
    } else {
      SameAdvances(v, v);
    }
  }

  /** Marking a row that is still pending. */
  lemma MarkRow(v: Vault, cid: nat)
    requires Inv(v) && cid in v.completions && ReadyToMark(v.completions[cid])
    requires v.completions[cid].id in v.rows && v.rows[v.completions[cid].id].status == PendingUpload
    ensures Inv(Mark(v, cid)) && Advances(v, Mark(v, cid))
  {
    var c, next := v.completions[cid], Mark(v, cid);
    assert CompletionInv(v, c);
    MarkAdvances(v, cid);
    MarkedRowIsValid(v, cid);
    forall id | id in next.rows ensures RowInv(next, id) && Bounded(next.rows[id]) {
      if id != c.id {
        SameRowStays(v, next, id);
      }
    }
    MarkKeepsOthers(v, cid);
  }

  lemma MarkAdvances(v: Vault, cid: nat)
    requires cid in v.completions && ReadyToMark(v.completions[cid]) && v.completions[cid].id in v.rows && v.rows[v.completions[cid].id].status == PendingUpload
    ensures Advances(v, Mark(v, cid))
  {
    var c, next := v.completions[cid], Mark(v, cid);
    assert MayBecome(v.rows[c.id], Marked(v.rows[c.id], c));
    assert next.rows == v.rows[c.id := Marked(v.rows[c.id], c)];
    assert next.completions == v.completions[cid := c.(phase := Finished(Success(Marked(v.rows[c.id], c))))];
  }

  lemma MarkedRowIsValid(v: Vault, cid: nat)
    requires cid in v.completions && ReadyToMark(v.completions[cid]) && CompletionInv(v, v.completions[cid])
    requires v.rows[v.completions[cid].id].status == PendingUpload
    ensures RowInv(Mark(v, cid), v.completions[cid].id)
  {
    var c, next := v.completions[cid], Mark(v, cid);
    assert next.completions[cid].inspected == Some(next.completions[cid].record.declared);
    assert Found(next.completions[cid], c.id, c.outcome.value, c.at);
  }

  lemma MarkKeepsOthers(v: Vault, cid: nat)
    requires Inv(v) && cid in v.completions && ReadyToMark(v.completions[cid]) && Advances(v, Mark(v, cid))
    requires v.completions[cid].id in v.rows && v.rows[v.completions[cid].id].status == PendingUpload
    ensures CompletionsInv(Mark(v, cid)) && DownloadsInv(Mark(v, cid))
  {
    var next := Mark(v, cid);
    DownloadsStay(v, next);
    assert next.completions == v.completions[cid := v.completions[cid].(phase := next.completions[cid].phase)];
    forall other | other in v.completions ensures CompletionInv(next, v.completions[other]) {
      assert MayBecome(v.rows[v.completions[other].id], next.rows[v.completions[other].id]);
      CompletionStays(v, next, v.completions[other]);
    }
    FinishingIsValid(next, v.completions[cid], next.completions[cid].phase);
  }

  lemma FinishingIsValid(v: Vault, c: Completion, phase: Phase)
    requires CompletionInv(v, c) && phase.Finished?
    ensures CompletionInv(v, c.(phase := phase))
  {
  }

  lemma MarkIsGood(v: Vault, cid: nat)
    requires Inv(v)
    ensures Inv(Mark(v, cid)) && Advances(v, Mark(v, cid))
  {
    if cid in v.completions && ReadyToMark(v.completions[cid]) {
      var c := v.completions[cid];
      assert CompletionInv(v, c);
      if v.rows[c.id].status == PendingUpload {
        MarkRow(v, cid);
      } else {
        CompletionStep(v, Mark(v, cid), cid);
      }
    }
  }

  lemma CreateRow(v: Vault, id: string, input: Intent, now: int, uploadTtlMs: int)
    requires Inv(v) && id !in v.rows && ValidIntent(input, now, uploadTtlMs)
    ensures Inv(Create(v, id, input, true, now, uploadTtlMs).0) && Advances(v, Create(v, id, input, true, now, uploadTtlMs).0)
  {
    var next := Create(v, id, input, true, now, uploadTtlMs).0;
    assert next.rows == v.rows[id := NewRecord(input, now, uploadTtlMs)];
    assert Advances(v, next);
    forall other | other in next.rows ensures RowInv(next, other) && Bounded(next.rows[other]) {
      if other != id {
        SameRowStays(v, next, other);
      }
    }
    CompletionsStay(v, next);
    DownloadsStay(v, next);
  }

  lemma SameAdvances(before: Vault, after: Vault)
    requires after.rows == before.rows && after.completions == before.completions && after.copies == before.copies
    requires forall did | did in before.downloads :: did in after.downloads && after.downloads[did] == before.downloads[did]
    ensures Advances(before, after)
  {
  }

  lemma CreateIsGood(v: Vault, id: string, input: Intent, authorized: bool, now: int, uploadTtlMs: int)
    requires Inv(v)
    ensures Inv(Create(v, id, input, authorized, now, uploadTtlMs).0) && Advances(v, Create(v, id, input, authorized, now, uploadTtlMs).0)
  {
    if authorized && ValidIntent(input, now, uploadTtlMs) && id !in v.rows {
      CreateRow(v, id, input, now, uploadTtlMs);
    } else {
      SameAdvances(v, v);
    }
  }

  lemma SignKeepsDownloads(v: Vault, did: nat, id: string, authorized: bool)
    requires DownloadsInv(v)
    ensures DownloadsInv(Sign(v, did, id, authorized))
  {
  }

  /** A step that touches neither rows nor completions nor copies. */
  lemma AccessIsGood(v: Vault, next: Vault)
    requires Inv(v) && DownloadsInv(next) && next.rows == v.rows && next.completions == v.completions && next.copies == v.copies
    requires forall did | did in v.downloads :: did in next.downloads && next.downloads[did] == v.downloads[did]
    ensures Inv(next) && Advances(v, next)
  {
    SameAdvances(v, next);
    SameRowsStay(v, next);
    CompletionsStay(v, next);
  }

  lemma SignIsGood(v: Vault, did: nat, id: string, authorized: bool)
    requires Inv(v)
    ensures Inv(Sign(v, did, id, authorized)) && Advances(v, Sign(v, did, id, authorized))
  {
    SignKeepsDownloads(v, did, id, authorized);
    AccessIsGood(v, Sign(v, did, id, authorized));
  }

  lemma UploadIsGood(v: Vault, id: string, stored: StoredObject)
    requires Inv(v)
    ensures Inv(Upload(v, id, stored)) && Advances(v, Upload(v, id, stored))
  {
    SameAdvances(v, Upload(v, id, stored));
    SameRowsStay(v, Upload(v, id, stored));
    CompletionsStay(v, Upload(v, id, stored));
  }

  lemma ReturnIsGood(v: Vault, did: nat, audited: bool)
    requires Inv(v)
    ensures Inv(Return(v, did, audited)) && Advances(v, Return(v, did, audited))
  {
    assert DownloadsInv(Return(v, did, audited));
    AccessIsGood(v, Return(v, did, audited));
  }

  lemma StepIsGood(v: Vault, step: Step)
    requires Inv(v)
    ensures Inv(Perform(v, step)) && Advances(v, Perform(v, step))
  {
    match step
    case DoCreate(id, input, authorized, now, uploadTtlMs) => CreateIsGood(v, id, input, authorized, now, uploadTtlMs);
    case Put(id, stored) => UploadIsGood(v, id, stored);
    case DoBegin(cid, id, authorized, now) => BeginIsGood(v, cid, id, authorized, now);
    case DoInspect(cid) => InspectIsGood(v, cid);
    case DoScan(cid, outcome) => ScanIsGood(v, cid, outcome);
    case DoCopy(cid, answer) => CopyIsGood(v, cid, answer);
    case DoMark(cid) => MarkIsGood(v, cid);
    case DoSign(did, id, authorized) => SignIsGood(v, did, id, authorized);
    case DoReturn(did, audited) => ReturnIsGood(v, did, audited);
  }

  lemma {:induction false} RunIsGood(v: Vault, steps: seq<Step>)
    requires Inv(v)
    ensures Inv(Run(v, steps)) && Advances(v, Run(v, steps))
    decreases |steps|
  {
    if steps != [] {
      StepIsGood(v, steps[0]);
      RunIsGood(Perform(v, steps[0]), steps[1..]);
      AdvancesTransitive(v, Perform(v, steps[0]), Run(v, steps));
    }
  }

  lemma AdvancesTransitive(a: Vault, b: Vault, c: Vault)
    requires Advances(a, b) && Advances(b, c)
    ensures Advances(a, c)
  {
    forall id | id in a.rows ensures id in c.rows && MayBecome(a.rows[id], c.rows[id]) {
      assert MayBecome(a.rows[id], b.rows[id]) && MayBecome(b.rows[id], c.rows[id]);
    }
    forall cid | cid in a.completions ensures cid in c.completions && Continues(a.completions[cid], c.completions[cid]) {
      assert Continues(a.completions[cid], b.completions[cid]) && Continues(b.completions[cid], c.completions[cid]);
    }
  }

  // ---------- main theorems ----------

  /** A record leaves PENDING_UPLOAD at most once: preserved and quarantined rows never change again,
      and no row ever changes its metadata. */
  lemma RecordsSettleOnce(steps: seq<Step>, later: seq<Step>, id: string)
    requires id in Run(EMPTY, steps).rows
    ensures var before, after := Run(EMPTY, steps), Run(Run(EMPTY, steps), later);
      id in after.rows && MayBecome(before.rows[id], after.rows[id])
  {
    RunIsGood(EMPTY, steps);
    RunIsGood(Run(EMPTY, steps), later);
  }

  /** Every preserved record was found, by one completion that began in time, to have the declared
      content type, size and checksum, and was scanned clean by it; the verified values it carries are
      the declared ones. */
  lemma PreservedIsVerified(steps: seq<Step>, id: string)
    requires id in Run(EMPTY, steps).rows && Run(EMPTY, steps).rows[id].status == Preserved
    ensures var row := Run(EMPTY, steps).rows[id];
      && row.actualSize == Some(row.declared.sizeBytes) && row.verified == Some(row.declared.checksum)
      && row.completedAt.Some? && row.completedAt.value <= row.uploadExpiresAt
      && CompletedWith(Run(EMPTY, steps), id, Clean, row.completedAt.value)
  {
    RunIsGood(EMPTY, steps);
    assert RowInv(Run(EMPTY, steps), id);
  }

  /** Every quarantined record was rejected by a scan and has its object copied to quarantine. */
  lemma QuarantinedWasRejected(steps: seq<Step>, id: string)
    requires id in Run(EMPTY, steps).rows && Run(EMPTY, steps).rows[id].status == Quarantined
    ensures var v := Run(EMPTY, steps);
      id in v.copies && v.rows[id].reason.Some? && exists at :: CompletedWith(v, id, Rejected(v.rows[id].reason.value), at)
  {
    RunIsGood(EMPTY, steps);
    assert RowInv(Run(EMPTY, steps), id);
  }

  /** A download request is only ever returned for a record that is preserved, then and from then on. */
  lemma DownloadsArePreserved(steps: seq<Step>, did: nat)
    requires did in Run(EMPTY, steps).returned
    ensures var v := Run(EMPTY, steps);
      && did in v.downloads && v.downloads[did].id in v.rows
      && v.rows[v.downloads[did].id].status == Preserved && v.downloads[did].record == v.rows[v.downloads[did].id]
  {
    RunIsGood(EMPTY, steps);
  }

  /** This completion would succeed if it marked its record now. */
  predicate CanMark(v: Vault, cid: nat) {
    && cid in v.completions && ReadyToMark(v.completions[cid])
    && v.completions[cid].id in v.rows && v.rows[v.completions[cid].id].status == PendingUpload
  }

  /** Once a completion has marked its record, every other completion of that record fails, however
      far it had come. */
  lemma OneCompletionWins(steps: seq<Step>, cid: nat, later: seq<Step>, other: nat)
    requires CanMark(Run(EMPTY, steps), cid)
    requires var after := Run(Mark(Run(EMPTY, steps), cid), later);
      other in after.completions && ReadyToMark(after.completions[other]) && after.completions[other].id == Run(EMPTY, steps).completions[cid].id
    ensures var after := Run(Mark(Run(EMPTY, steps), cid), later);
      Mark(after, other).completions[other].phase == Finished(Failure(ChangedConcurrently)) && Mark(after, other).rows == after.rows
  {
    RunIsGood(EMPTY, steps);
    MarkSettles(Run(EMPTY, steps), cid);
    MarkIsGood(Run(EMPTY, steps), cid);
    SettledStays(Mark(Run(EMPTY, steps), cid), later, Run(EMPTY, steps).completions[cid].id);
  }

  lemma MarkSettles(v: Vault, cid: nat)
    requires CanMark(v, cid)
    ensures v.completions[cid].id in Mark(v, cid).rows && Mark(v, cid).rows[v.completions[cid].id].status != PendingUpload
  {
  }

  lemma SettledStays(v: Vault, later: seq<Step>, id: string)
    requires Inv(v) && id in v.rows && v.rows[id].status != PendingUpload
    ensures id in Run(v, later).rows && Run(v, later).rows[id].status != PendingUpload
  {
    RunIsGood(v, later);
    assert MayBecome(v.rows[id], Run(v, later).rows[id]);
  }

  // ---------- what was scanned is what is stored ----------

  /** Uploads go through signed requests, which pin the key, the content type and the checksum. */
  predicate Enforced(v: Vault, step: Step) {
    step.Put? ==> step.id in v.rows && step.stored.Inspection() == v.rows[step.id].declared
  }

  predicate AllEnforced(v: Vault, steps: seq<Step>)
    decreases |steps|
  {
    steps == [] || (Enforced(v, steps[0]) && AllEnforced(Perform(v, steps[0]), steps[1..]))
  }

  ghost predicate ObjectsInv(v: Vault) {
    && (forall id | id in v.objects :: id in v.rows && v.objects[id].Inspection() == v.rows[id].declared)
    && (forall cid | cid in v.completions && v.completions[cid].inspected.Some? :: v.completions[cid].id in v.objects)
    && (forall cid | cid in v.completions && v.completions[cid].outcome.Some? ::
          v.completions[cid].id in v.objects && v.completions[cid].scanned == Some(v.objects[v.completions[cid].id]))
  }

  /** The same metadata, the same object: the checksum determines the content. */
  lemma InspectionIdentifies(a: StoredObject, b: StoredObject)
    requires a.Inspection() == b.Inspection()
    ensures a == b
  {
  }

  lemma EnforcedStep(v: Vault, step: Step)
    requires Inv(v) && ObjectsInv(v) && Enforced(v, step)
    ensures ObjectsInv(Perform(v, step))
  {
    match step
    case DoCreate(id, input, authorized, now, uploadTtlMs) => CreateKeepsObjects(v, id, input, authorized, now, uploadTtlMs);
    case Put(id, stored) => PutKeepsObjects(v, id, stored);
    case DoBegin(cid, id, authorized, now) => BeginKeepsObjects(v, cid, id, authorized, now);
    case DoInspect(cid) => InspectKeepsObjects(v, cid);
    case DoScan(cid, outcome) => ScanKeepsObjects(v, cid, outcome);
    case DoCopy(cid, answer) => CopyKeepsObjects(v, cid, answer);
    case DoMark(cid) => MarkKeepsObjects(v, cid);
    case DoSign(_, _, _) => SameObjects(v, Perform(v, step));
    case DoReturn(_, _) => SameObjects(v, Perform(v, step));
  }

  lemma SameObjects(before: Vault, after: Vault)
    requires ObjectsInv(before) && after.objects == before.objects && after.rows == before.rows && after.completions == before.completions
    ensures ObjectsInv(after)
  {
  }

  lemma BeginKeepsObjects(v: Vault, cid: nat, id: string, authorized: bool, now: int)
    requires ObjectsInv(v)
    ensures ObjectsInv(Begin(v, cid, id, authorized, now))
  {
  }

  lemma CreateKeepsObjects(v: Vault, id: string, input: Intent, authorized: bool, now: int, uploadTtlMs: int)
    requires ObjectsInv(v)
    ensures ObjectsInv(Create(v, id, input, authorized, now, uploadTtlMs).0)
  {
  }

  lemma PutKeepsObjects(v: Vault, id: string, stored: StoredObject)
    requires ObjectsInv(v) && id in v.rows && stored.Inspection() == v.rows[id].declared
    ensures ObjectsInv(Upload(v, id, stored))
  {
    if id in v.objects {
      InspectionIdentifies(stored, v.objects[id]);
    }
  }

  lemma InspectKeepsObjects(v: Vault, cid: nat)
    requires ObjectsInv(v)
    ensures ObjectsInv(Inspect(v, cid))
  {
  }

  lemma ScanKeepsObjects(v: Vault, cid: nat, outcome: Outcome)
    requires ObjectsInv(v) && CompletionsInv(v)
    ensures ObjectsInv(Scan(v, cid, outcome))
  {
    if cid in v.completions && v.completions[cid].phase == Inspected {
      assert CompletionInv(v, v.completions[cid]);
    }
  }

  lemma CopyKeepsObjects(v: Vault, cid: nat, answer: CopyAnswer)
    requires ObjectsInv(v)
    ensures ObjectsInv(Copy(v, cid, answer))
  {
  }

  lemma MarkKeepsObjects(v: Vault, cid: nat)
    requires ObjectsInv(v)
    ensures ObjectsInv(Mark(v, cid))
  {
  }

  lemma {:induction false} EnforcedRun(v: Vault, steps: seq<Step>)
    requires Inv(v) && ObjectsInv(v) && AllEnforced(v, steps)
    ensures Inv(Run(v, steps)) && ObjectsInv(Run(v, steps))
    decreases |steps|
  {
    if steps != [] {
      StepIsGood(v, steps[0]);
      EnforcedStep(v, steps[0]);
      EnforcedRun(Perform(v, steps[0]), steps[1..]);
    }
  }

  /** When every upload goes through a signed request, the object stored for a preserved record is the
      very one that its completion scanned clean. */
  lemma WhatWasScannedIsStored(steps: seq<Step>, id: string)
    requires AllEnforced(EMPTY, steps) && id in Run(EMPTY, steps).rows && Run(EMPTY, steps).rows[id].status == Preserved
    ensures var v := Run(EMPTY, steps);
      && id in v.objects
      && exists cid | cid in v.completions :: v.completions[cid].id == id && v.completions[cid].outcome == Some(Clean) && v.completions[cid].scanned == Some(v.objects[id])
  {
    EnforcedRun(EMPTY, steps);
    var v := Run(EMPTY, steps);
    assert RowInv(v, id);
    var cid :| cid in v.completions && Found(v.completions[cid], id, Clean, v.rows[id].completedAt.value);
  }
}
