/** Evidence uploads: the rows of evidence_objects, the object store, and the steps in which a
    completion inspects, scans and marks an upload.

    A SHA-256 digest is represented by the content it digests. */
module EvidenceVault {
  import opened Wrappers

  const MAX_SIZE_BYTES := 250 * 1024 * 1024
  const DAY_MS := 24 * 60 * 60 * 1000
  const RETENTION_MS := 365 * DAY_MS
  const MAX_UPLOAD_TTL_MS := 10 * 60 * 1000

  const ALLOWED_CONTENT_TYPES: set<string> := {"image/jpeg", "image/png", "image/webp", "video/mp4", "application/json", "application/octet-stream"}

  datatype Digest = Digest(content: string)

  datatype StoredObject = StoredObject(contentType: string, content: string)
  {
    function Inspection(): Metadata {
      Metadata(contentType, |content|, Digest(content))
    }
  }

  datatype Metadata = Metadata(contentType: string, sizeBytes: nat, checksum: Digest)

  datatype Status = PendingUpload | Preserved | Quarantined

  datatype Record = Record(
    roadEventId: string, declared: Metadata, uploadExpiresAt: int, retainUntil: int, createdBy: string, createdAt: int,
    status: Status, actualSize: Option<nat>, verified: Option<Digest>, completedAt: Option<int>, reason: Option<string>)

  datatype Outcome = Clean | Rejected(reason: string)

  datatype VaultError = NotFound | AccessDenied | InvalidInput | WrongStatus | Expired | ObjectMissing | IntegrityMismatch | StorageFailed | QuarantineUnverified | ChangedConcurrently

  /** How a copy to quarantine can go: it can be made and still fail, when its verification does. */
  datatype CopyAnswer = NotCopied | CopiedUnverified | CopiedVerified

  datatype Phase = Begun | Inspected | Scanned | Copied | Finished(result: Result<Record, VaultError>)

  /** One call of completeUpload: what it read when, and what it has found out so far. */
  datatype Completion = Completion(
    id: string, record: Record, at: int, phase: Phase, inspected: Option<Metadata>, outcome: Option<Outcome>, scanned: Option<StoredObject>)

  datatype AuditEntry = AuditEntry(id: string, before: Option<Record>, after: Record)

  /** A download request handed to a caller, with the record it was made from. */
  datatype Download = Download(id: string, record: Record)

  datatype Vault = Vault(
    rows: map<string, Record>, objects: map<string, StoredObject>, copies: map<string, StoredObject>,
    completions: map<nat, Completion>, downloads: map<nat, Download>, returned: set<nat>, audit: seq<AuditEntry>)

  const EMPTY := Vault(map[], map[], map[], map[], map[], {}, [])

  // ---------- upload intents ----------

  datatype Intent = Intent(roadEventId: string, declared: Metadata, retainUntil: int, legalHold: bool, createdBy: string)

  predicate ValidIntent(input: Intent, now: int, uploadTtlMs: int) {
    && 1 <= |input.roadEventId| <= 128
    && input.declared.contentType in ALLOWED_CONTENT_TYPES
    && 1 <= input.declared.sizeBytes <= MAX_SIZE_BYTES
    && !input.legalHold && now < input.retainUntil <= now + RETENTION_MS
    && 1 <= uploadTtlMs <= MAX_UPLOAD_TTL_MS
  }

  function NewRecord(input: Intent, now: int, uploadTtlMs: int): Record {
    Record(input.roadEventId, input.declared, now + uploadTtlMs, input.retainUntil, input.createdBy, now, PendingUpload, None, None, None, None)
  }

  /** The UNIQUE id makes an insert with a used id fail. */
  function Create(v: Vault, id: string, input: Intent, authorized: bool, now: int, uploadTtlMs: int): (Vault, Result<Record, VaultError>) {
    if !authorized then (v, Failure(AccessDenied))
    else if !ValidIntent(input, now, uploadTtlMs) then (v, Failure(InvalidInput))
    else if id in v.rows then (v, Failure(StorageFailed))
    else
      var record := NewRecord(input, now, uploadTtlMs);
      (v.(rows := v.rows[id := record], audit := v.audit + [AuditEntry(id, None, record)]), Success(record))
  }

  // ---------- completion ----------

  predicate MayBegin(v: Vault, id: string, authorized: bool, now: int) {
    id in v.rows && authorized && v.rows[id].status == PendingUpload && now <= v.rows[id].uploadExpiresAt
  }

  function SetCompletion(v: Vault, cid: nat, c: Completion): Vault {
    v.(completions := v.completions[cid := c])
  }

  function Begin(v: Vault, cid: nat, id: string, authorized: bool, now: int): Vault {
    if cid in v.completions || !MayBegin(v, id, authorized, now) then v
    else SetCompletion(v, cid, Completion(id, v.rows[id], now, Begun, None, None, None))
  }

  function InspectionError(v: Vault, c: Completion): Option<VaultError> {
    if c.id !in v.objects then Some(ObjectMissing)
    else if v.objects[c.id].Inspection() != c.record.declared then Some(IntegrityMismatch)
    else None
  }

  function Inspect(v: Vault, cid: nat): Vault {
    if cid !in v.completions || v.completions[cid].phase != Begun then v
    else
      var c := v.completions[cid];
      var error := InspectionError(v, c);
      if error.Some? then SetCompletion(v, cid, c.(phase := Finished(Failure(error.value))))
      else SetCompletion(v, cid, c.(phase := Inspected, inspected := Some(v.objects[c.id].Inspection())))
  }

  /** The scanner looks at whatever object is stored when it runs. */
  function Scan(v: Vault, cid: nat, outcome: Outcome): Vault {
    if cid !in v.completions || v.completions[cid].phase != Inspected then v
    else
      var c := v.completions[cid];
      SetCompletion(v, cid, c.(phase := Scanned, outcome := Some(outcome), scanned := if c.id in v.objects then Some(v.objects[c.id]) else None))
  }

  /** storage.quarantine: copy and retain, then compare the metadata. */
  function Copy(v: Vault, cid: nat, answer: CopyAnswer): Vault {
    if cid !in v.completions || v.completions[cid].phase != Scanned || v.completions[cid].outcome == Some(Clean) then v
    else
      var c := v.completions[cid];
      if answer == NotCopied || c.id !in v.objects then SetCompletion(v, cid, c.(phase := Finished(Failure(StorageFailed))))
      else
        SetCompletion(v, cid, c.(phase := if answer == CopiedVerified then Copied else Finished(Failure(QuarantineUnverified))))
        .(copies := v.copies[c.id := v.objects[c.id]])
  }

  predicate ReadyToMark(c: Completion) {
    (c.phase == Scanned && c.outcome == Some(Clean) && c.inspected.Some?) || (c.phase == Copied && c.outcome.Some? && c.outcome.value.Rejected?)
  }

  function Marked(row: Record, c: Completion): Record
    requires ReadyToMark(c)
  {
    if c.outcome == Some(Clean) then
      row.(status := Preserved, actualSize := Some(c.inspected.value.sizeBytes), verified := Some(c.inspected.value.checksum),
           completedAt := Some(c.at), reason := None)
    else
      row.(status := Quarantined, actualSize := None, verified := None, completedAt := Some(c.at), reason := Some(c.outcome.value.reason))
  }

  /** The guarded UPDATE ... WHERE status = 'PENDING_UPLOAD', with its audit entry. */
  function Mark(v: Vault, cid: nat): Vault {
    if cid !in v.completions || !ReadyToMark(v.completions[cid]) then v
    else
      var c := v.completions[cid];
      if c.id !in v.rows then SetCompletion(v, cid, c.(phase := Finished(Failure(NotFound))))
      else if v.rows[c.id].status != PendingUpload then SetCompletion(v, cid, c.(phase := Finished(Failure(ChangedConcurrently))))
      else
        var after := Marked(v.rows[c.id], c);
        SetCompletion(v, cid, c.(phase := Finished(Success(after))))
        .(rows := v.rows[c.id := after], audit := v.audit + [AuditEntry(c.id, Some(v.rows[c.id]), after)])
  }

  // ---------- downloads ----------

  /** Read the record and sign a request for it; nothing is returned yet. */
  function Sign(v: Vault, did: nat, id: string, authorized: bool): Vault {
    if did in v.downloads || id !in v.rows || !authorized || v.rows[id].status != Preserved then v
    else v.(downloads := v.downloads[did := Download(id, v.rows[id])])
  }

  /** Return the signed request, once its audit entry is stored. */
  function Return(v: Vault, did: nat, audited: bool): Vault {
    if did !in v.downloads || !audited then v
    else
      var d := v.downloads[did];
      v.(returned := v.returned + {did}, audit := v.audit + [AuditEntry(d.id, Some(d.record), d.record)])
  }

  /** Someone uploads to the key of an evidence record. */
  function Upload(v: Vault, id: string, stored: StoredObject): Vault {
    v.(objects := v.objects[id := stored])
  }

  // ---------- runs ----------

  datatype Step =
    | DoCreate(id: string, input: Intent, authorized: bool, now: int, uploadTtlMs: int)
    | Put(id: string, stored: StoredObject)
    | DoBegin(cid: nat, id: string, authorized: bool, now: int)
    | DoInspect(cid: nat)
    | DoScan(cid: nat, outcome: Outcome)
    | DoCopy(cid: nat, answer: CopyAnswer)
    | DoMark(cid: nat)
    | DoSign(did: nat, id: string, authorized: bool)
    | DoReturn(did: nat, audited: bool)

  function Perform(v: Vault, step: Step): Vault {
    match step
    case DoCreate(id, input, authorized, now, uploadTtlMs) => Create(v, id, input, authorized, now, uploadTtlMs).0
    case Put(id, stored) => Upload(v, id, stored)
    case DoBegin(cid, id, authorized, now) => Begin(v, cid, id, authorized, now)
    case DoInspect(cid) => Inspect(v, cid)
    case DoScan(cid, outcome) => Scan(v, cid, outcome)
    case DoCopy(cid, answer) => Copy(v, cid, answer)
    case DoMark(cid) => Mark(v, cid)
    case DoSign(did, id, authorized) => Sign(v, did, id, authorized)
    case DoReturn(did, audited) => Return(v, did, audited)
  }

  function Run(v: Vault, steps: seq<Step>): Vault
    decreases |steps|
  {
    if steps == [] then v else Run(Perform(v, steps[0]), steps[1..])
  }

  lemma {:induction false} RunAppend(v: Vault, steps: seq<Step>, more: seq<Step>)
    ensures Run(v, steps + more) == Run(Run(v, steps), more)
    decreases |steps|
  {
    if steps == [] {
      assert steps + more == more;
    } else {
      assert (steps + more)[1..] == steps[1..] + more;
      RunAppend(Perform(v, steps[0]), steps[1..], more);
    }
  }
}
