/** What each request of the evidence service does in a reachable vault, told from the fields alone, and what
    the audit trail says of it. */
module EvidenceOutcomes {
  import opened Wrappers
  import opened EvidenceVault
  import opened EvidenceRuns

  // ---------- upload intents ----------

  /** What the intent may ask for. */
  ghost predicate WithinLimits(input: Intent, now: int, uploadTtlMs: int) {
    && 1 <= |input.roadEventId| <= 128
    && input.declared.contentType in {"image/jpeg", "image/png", "image/webp", "video/mp4", "application/json", "application/octet-stream"}
    && 1 <= input.declared.sizeBytes <= 262_144_000
    && !input.legalHold && now < input.retainUntil && input.retainUntil - now <= 31_536_000_000
    && 1 <= uploadTtlMs <= 600_000
  }

  /** An intent becomes a pending record exactly when its caller is authorized, it stays within the limits and its
      id is new. */
  lemma CreatesExactlyWhen(v: Vault, id: string, input: Intent, authorized: bool, now: int, uploadTtlMs: int)
    ensures var (next, r) := Create(v, id, input, authorized, now, uploadTtlMs);
      var record := Record(input.roadEventId, input.declared, now + uploadTtlMs, input.retainUntil, input.createdBy, now,
                           PendingUpload, None, None, None, None);
      if authorized && WithinLimits(input, now, uploadTtlMs) && id !in v.rows then
        r == Success(record) && next == v.(rows := v.rows[id := record], audit := v.audit + [AuditEntry(id, None, record)])
      else
        && next == v
        && r == Failure(if !authorized then AccessDenied else if !WithinLimits(input, now, uploadTtlMs) then InvalidInput else StorageFailed)
  {
    assert 250 * 1024 * 1024 == 262_144_000 && 365 * (24 * 60 * 60 * 1000) == 31_536_000_000;
  }

  // ---------- one completion ----------

  /** The record may be completed now by this caller. */
  ghost predicate IsOpen(v: Vault, id: string, authorized: bool, now: int) {
    id in v.rows && authorized && v.rows[id].status == PendingUpload && now <= v.rows[id].uploadExpiresAt
  }

  /** The stored object is as it was declared. */
  ghost predicate IsAsDeclared(stored: StoredObject, declared: Metadata) {
    stored.contentType == declared.contentType && |stored.content| == declared.sizeBytes && Digest(stored.content) == declared.checksum
  }

  function Steps(cid: nat, id: string, authorized: bool, now: int, outcome: Outcome, answer: CopyAnswer): seq<Step> {
    [DoBegin(cid, id, authorized, now), DoInspect(cid), DoScan(cid, outcome), DoCopy(cid, answer), DoMark(cid)]
  }

  lemma RunFive(v: Vault, a: Step, b: Step, c: Step, d: Step, e: Step)
    ensures Run(v, [a, b, c, d, e]) == Perform(Perform(Perform(Perform(Perform(v, a), b), c), d), e)
  {
    var v1, v2, v3, v4 := Perform(v, a), Perform(Perform(v, a), b), Perform(Perform(Perform(v, a), b), c), Perform(Perform(Perform(Perform(v, a), b), c), d);
    assert [a, b, c, d, e][1..] == [b, c, d, e] && [b, c, d, e][1..] == [c, d, e] && [c, d, e][1..] == [d, e] && [d, e][1..] == [e] && [e][1..] == [];
    assert Run(v4, [e]) == Perform(v4, e);
    assert Run(v3, [d, e]) == Run(v4, [e]);
    assert Run(v2, [c, d, e]) == Run(v3, [d, e]);
    assert Run(v1, [b, c, d, e]) == Run(v2, [c, d, e]);
  }

  /** What a completion that nobody disturbs comes to. */
  ghost function ResultOf(v: Vault, id: string, now: int, outcome: Outcome, answer: CopyAnswer): Result<Record, VaultError>
    requires id in v.rows
  {
    var row := v.rows[id];
    if id !in v.objects then Failure(ObjectMissing)
    else if !IsAsDeclared(v.objects[id], row.declared) then Failure(IntegrityMismatch)
    else
      match outcome
      case Clean =>
        Success(row.(status := Preserved, actualSize := Some(row.declared.sizeBytes), verified := Some(row.declared.checksum), completedAt := Some(now)))
      case Rejected(reason) =>
        if answer == NotCopied then Failure(StorageFailed)
        else if answer == CopiedUnverified then Failure(QuarantineUnverified)
        else Success(row.(status := Quarantined, completedAt := Some(now), reason := Some(reason)))
  }

  /** The vault after this completion has come to this result, with these copies. */
  ghost predicate FinishedWith(v: Vault, next: Vault, cid: nat, id: string, r: Result<Record, VaultError>, copies: map<string, StoredObject>)
    requires id in v.rows
  {
    && cid in next.completions && next.completions[cid].phase == Finished(r)
    && next.rows == (if r.Success? then v.rows[id := r.value] else v.rows)
    && next.audit == (if r.Success? then v.audit + [AuditEntry(id, Some(v.rows[id]), r.value)] else v.audit)
    && next.objects == v.objects && next.copies == copies
  }

  /** In every reachable state a completion that nobody disturbs begins exactly when the record is open to the caller.  It preserves the
      record when the stored object is as declared and clean, quarantines it when it is rejected and its copy was
      verified, and otherwise fails and leaves it pending.  A rejected object is copied whenever a copy could be
      made; no other object, record or copy is touched. */
  lemma UndisturbedCompletion(history: seq<Step>, cid: nat, id: string, authorized: bool, now: int, outcome: Outcome, answer: CopyAnswer)
    requires cid !in Run(EMPTY, history).completions
    ensures var v := Run(EMPTY, history);
      var next := Run(v, Steps(cid, id, authorized, now, outcome, answer));
      if !IsOpen(v, id, authorized, now) then next == v
      else
        var r := ResultOf(v, id, now, outcome, answer);
        FinishedWith(v, next, cid, id, r,
          if outcome.Rejected? && answer != NotCopied && id in v.objects && IsAsDeclared(v.objects[id], v.rows[id].declared)
          then v.copies[id := v.objects[id]] else v.copies)
  {
    RunIsGood(EMPTY, history);
    CompletesUndisturbed(Run(EMPTY, history), cid, id, authorized, now, outcome, answer);
  }

  lemma CompletesUndisturbed(v: Vault, cid: nat, id: string, authorized: bool, now: int, outcome: Outcome, answer: CopyAnswer)
    requires Inv(v) && cid !in v.completions
    ensures var next := Run(v, Steps(cid, id, authorized, now, outcome, answer));
      if !IsOpen(v, id, authorized, now) then next == v
      else
        FinishedWith(v, next, cid, id, ResultOf(v, id, now, outcome, answer),
          if outcome.Rejected? && answer != NotCopied && id in v.objects && IsAsDeclared(v.objects[id], v.rows[id].declared)
          then v.copies[id := v.objects[id]] else v.copies)
  {
    var steps := Steps(cid, id, authorized, now, outcome, answer);
    RunFive(v, steps[0], steps[1], steps[2], steps[3], steps[4]);
    if IsOpen(v, id, authorized, now) {
      assert RowInv(v, id);
      BegunInspects(v, cid, id, now);
      var inspected := Inspect(Begin(v, cid, id, true, now), cid);
      if id in v.objects && IsAsDeclared(v.objects[id], v.rows[id].declared) {
        InspectedFinishes(v, inspected, cid, id, now, outcome, answer);
      } else {
        FailedStaysFailed(inspected, cid, outcome, answer);
      }
    }
  }

  lemma BegunInspects(v: Vault, cid: nat, id: string, now: int)
    requires cid !in v.completions && IsOpen(v, id, true, now)
    ensures var next := Inspect(Begin(v, cid, id, true, now), cid);
      var c := Completion(id, v.rows[id], now, Begun, None, None, None);
      if id in v.objects && IsAsDeclared(v.objects[id], v.rows[id].declared)
      then next == SetCompletion(v, cid, c.(phase := Inspected, inspected := Some(v.rows[id].declared)))
      else next == SetCompletion(v, cid, c.(phase := Finished(Failure(if id !in v.objects then ObjectMissing else IntegrityMismatch))))
  {
    var begun := Begin(v, cid, id, true, now);
    assert begun == SetCompletion(v, cid, Completion(id, v.rows[id], now, Begun, None, None, None));
    var next := Inspect(begun, cid);
    assert next.completions == v.completions[cid := next.completions[cid]];
    if id in v.objects {
      assert v.objects[id].Inspection() == v.rows[id].declared <==> IsAsDeclared(v.objects[id], v.rows[id].declared);
    }
  }

  lemma FailedStaysFailed(v: Vault, cid: nat, outcome: Outcome, answer: CopyAnswer)
    requires cid in v.completions && v.completions[cid].phase.Finished?
    ensures Mark(Copy(Scan(v, cid, outcome), cid, answer), cid) == v
  {
  }

  ghost function ScannedBy(v: Vault, cid: nat, id: string, now: int, outcome: Outcome): Vault
    requires id in v.rows && id in v.objects
  {
    SetCompletion(v, cid, Completion(id, v.rows[id], now, Scanned, Some(v.rows[id].declared), Some(outcome), Some(v.objects[id])))
  }

  lemma CleanFinishes(v: Vault, cid: nat, id: string, now: int, answer: CopyAnswer)
    requires id in v.rows && RowInv(v, id) && v.rows[id].status == PendingUpload && id in v.objects && IsAsDeclared(v.objects[id], v.rows[id].declared)
    ensures FinishedWith(v, Mark(Copy(ScannedBy(v, cid, id, now, Clean), cid, answer), cid), cid, id, ResultOf(v, id, now, Clean, answer), v.copies)
  {
    var scanned := ScannedBy(v, cid, id, now, Clean);
    assert Copy(scanned, cid, answer) == scanned;
  }

  lemma RejectedFinishes(v: Vault, cid: nat, id: string, now: int, outcome: Outcome, answer: CopyAnswer)
    requires id in v.rows && RowInv(v, id) && v.rows[id].status == PendingUpload && id in v.objects && IsAsDeclared(v.objects[id], v.rows[id].declared)
    requires outcome.Rejected?
    ensures FinishedWith(v, Mark(Copy(ScannedBy(v, cid, id, now, outcome), cid, answer), cid), cid, id, ResultOf(v, id, now, outcome, answer),
                         if answer == NotCopied then v.copies else v.copies[id := v.objects[id]])
  {
    var copied := Copy(ScannedBy(v, cid, id, now, outcome), cid, answer);
    assert copied.rows == v.rows && copied.audit == v.audit && copied.objects == v.objects;
  }

  lemma InspectedFinishes(v: Vault, inspected: Vault, cid: nat, id: string, now: int, outcome: Outcome, answer: CopyAnswer)
    requires id in v.rows && RowInv(v, id) && v.rows[id].status == PendingUpload && id in v.objects && IsAsDeclared(v.objects[id], v.rows[id].declared)
    requires inspected == SetCompletion(v, cid, Completion(id, v.rows[id], now, Inspected, Some(v.rows[id].declared), None, None))
    ensures FinishedWith(v, Mark(Copy(Scan(inspected, cid, outcome), cid, answer), cid), cid, id, ResultOf(v, id, now, outcome, answer),
                         if outcome.Rejected? && answer != NotCopied then v.copies[id := v.objects[id]] else v.copies)
  {
    assert Scan(inspected, cid, outcome) == ScannedBy(v, cid, id, now, outcome);
    if outcome == Clean {
      CleanFinishes(v, cid, id, now, answer);
    } else {
      RejectedFinishes(v, cid, id, now, outcome, answer);
    }
  }

  // ---------- downloads ----------

  /** In every reachable state a download request is returned exactly when its caller is authorized, the record is
      preserved and the audit entry can be stored, which then says what was handed out; nothing else changes. */
  lemma ReturnsExactlyWhen(history: seq<Step>, did: nat, id: string, authorized: bool, audited: bool)
    requires did !in Run(EMPTY, history).downloads
    ensures var v := Run(EMPTY, history);
      var next := Return(Sign(v, did, id, authorized), did, audited);
      var granted := id in v.rows && authorized && v.rows[id].status == Preserved;
      && (did in next.returned <==> granted && audited)
      && next == v.(
           downloads := if granted then v.downloads[did := Download(id, v.rows[id])] else v.downloads,
           returned := if granted && audited then v.returned + {did} else v.returned,
           audit := if granted && audited then v.audit + [AuditEntry(id, Some(v.rows[id]), v.rows[id])] else v.audit)
  {
    RunIsGood(EMPTY, history);
  }

  // ---------- the audit trail ----------

  /** The k-th audit entry describes this record as it is, and so do all later entries on it. */
  ghost predicate DescribedSince(v: Vault, id: string, k: nat) {
    && id in v.rows && k < |v.audit| && v.audit[k].id == id
    && forall m | k <= m < |v.audit| && v.audit[m].id == id :: v.audit[m].after == v.rows[id]
  }

  ghost predicate AuditInv(v: Vault) {
    forall id | id in v.rows :: exists k :: DescribedSince(v, id, k)
  }

  /** A step writes nothing, or one row and its entry, or an entry that describes a row as it is. */
  ghost predicate Recorded(v: Vault, next: Vault) {
    || (next.rows == v.rows && next.audit == v.audit)
    || exists entry: AuditEntry :: next.audit == v.audit + [entry] && next.rows == v.rows[entry.id := entry.after]
  }

  lemma RecordedKeepsAudit(v: Vault, next: Vault)
    requires AuditInv(v) && Recorded(v, next)
    ensures AuditInv(next)
  {
    forall id | id in next.rows ensures exists k :: DescribedSince(next, id, k) {
      if next.audit == v.audit {
        var k :| DescribedSince(v, id, k);
        assert DescribedSince(next, id, k);
      } else {
        var entry: AuditEntry :| next.audit == v.audit + [entry] && next.rows == v.rows[entry.id := entry.after];
        if entry.id == id {
          assert DescribedSince(next, id, |v.audit|);
        } else {
          var k :| DescribedSince(v, id, k);
          assert DescribedSince(next, id, k);
        }
      }
    }
  }

  lemma MarkIsRecorded(v: Vault, cid: nat)
    ensures Recorded(v, Mark(v, cid))
  {
    if CanMark(v, cid) {
      var c := v.completions[cid];
      assert Mark(v, cid).audit == v.audit + [AuditEntry(c.id, Some(v.rows[c.id]), Marked(v.rows[c.id], c))];
    }
  }

  lemma ReturnIsRecorded(v: Vault, did: nat, audited: bool)
    requires DownloadsInv(v)
    ensures Recorded(v, Return(v, did, audited))
  {
    if did in v.downloads && audited {
      var d := v.downloads[did];
      assert v.rows[d.id := d.record] == v.rows;
      assert Return(v, did, audited).audit == v.audit + [AuditEntry(d.id, Some(d.record), d.record)];
    }
  }

  lemma CreateIsRecorded(v: Vault, id: string, input: Intent, authorized: bool, now: int, uploadTtlMs: int)
    ensures Recorded(v, Create(v, id, input, authorized, now, uploadTtlMs).0)
  {
    CreatesExactlyWhen(v, id, input, authorized, now, uploadTtlMs);
    if authorized && WithinLimits(input, now, uploadTtlMs) && id !in v.rows {
      var next := Create(v, id, input, authorized, now, uploadTtlMs).0;
      var entry := AuditEntry(id, None, next.rows[id]);
      assert next.audit == v.audit + [entry] && next.rows == v.rows[entry.id := entry.after];
    }
  }

  lemma StepIsRecorded(v: Vault, step: Step)
    requires DownloadsInv(v)
    ensures Recorded(v, Perform(v, step))
  {
    match step
    case DoCreate(id, input, authorized, now, uploadTtlMs) => CreateIsRecorded(v, id, input, authorized, now, uploadTtlMs);
    case DoMark(cid) => MarkIsRecorded(v, cid);
    case DoReturn(did, audited) => ReturnIsRecorded(v, did, audited);
    case _ =>
  }

  lemma {:induction false} RunKeepsAudit(v: Vault, steps: seq<Step>)
    requires Inv(v) && AuditInv(v)
    ensures AuditInv(Run(v, steps))
    decreases |steps|
  {
    if steps != [] {
      StepIsGood(v, steps[0]);
      StepIsRecorded(v, steps[0]);
      RecordedKeepsAudit(v, Perform(v, steps[0]));
      RunKeepsAudit(Perform(v, steps[0]), steps[1..]);
    }
  }

  /** In every run, the last audit entry on a record describes it as it is: no creation and no change of a record
      goes unrecorded. */
  lemma AuditDescribesEveryRecord(steps: seq<Step>, id: string) returns (k: nat)
    requires id in Run(EMPTY, steps).rows
    ensures DescribedSince(Run(EMPTY, steps), id, k)
  {
    RunKeepsAudit(EMPTY, steps);
    k :| DescribedSince(Run(EMPTY, steps), id, k);
  }
}
