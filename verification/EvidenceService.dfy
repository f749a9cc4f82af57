/** EvidenceService with its repository and object store as one object.  At every await other requests
    may take any number of steps; each call is proved to be a run of the interleaved steps. */
module EvidenceService {
  import opened Wrappers
  import opened EvidenceVault

  class Evidence {
    var rows: map<string, Record>
    var objects: map<string, StoredObject>
    var copies: map<string, StoredObject>
    var audit: seq<AuditEntry>
    ghost var completions: map<nat, Completion>
    ghost var downloads: map<nat, Download>
    ghost var returned: set<nat>

    constructor ()
      ensures Value() == EMPTY
    {
      rows, objects, copies, audit, completions, downloads, returned := map[], map[], map[], [], map[], map[], {};
    }

    ghost function Value(): Vault
      reads this
    {
      Vault(rows, objects, copies, completions, downloads, returned, audit)
    }

    // ---------- the repository ----------

    method CreateUploadIntent(id: string, input: Intent, authorized: bool, now: int, uploadTtlMs: int) returns (r: Result<Record, VaultError>)
      modifies this
      ensures (Value(), r) == Create(old(Value()), id, input, authorized, now, uploadTtlMs)
    {
      if !authorized {
        return Failure(AccessDenied);
      }
      if !ValidIntent(input, now, uploadTtlMs) {
        return Failure(InvalidInput);
      }
      if id in rows {
        return Failure(StorageFailed);
      }
      var record := NewRecord(input, now, uploadTtlMs);
      rows := rows[id := record];
      audit := audit + [AuditEntry(id, None, record)];
      return Success(record);
    }

    /** The guarded UPDATE: nothing happens unless the row is still pending. */
    method Transition(id: string, status: Status, at: int, actualSize: Option<nat>, verified: Option<Digest>, reason: Option<string>)
        returns (r: Result<Record, VaultError>)
      modifies this`rows, this`audit
      ensures if id !in old(rows) then r == Failure(NotFound) && rows == old(rows) && audit == old(audit)
        else if old(rows)[id].status != PendingUpload then r == Failure(ChangedConcurrently) && rows == old(rows) && audit == old(audit)
        else
          var after := old(rows)[id].(status := status, actualSize := actualSize, verified := verified, completedAt := Some(at), reason := reason);
          r == Success(after) && rows == old(rows)[id := after] && audit == old(audit) + [AuditEntry(id, Some(old(rows)[id]), after)]
    {
      if id !in rows {
        return Failure(NotFound);
      }
      var before := rows[id];
      if before.status != PendingUpload {
        return Failure(ChangedConcurrently);
      }
      var after := before.(status := status, actualSize := actualSize, verified := verified, completedAt := Some(at), reason := reason);
      rows := rows[id := after];
      audit := audit + [AuditEntry(id, Some(before), after)];
      return Success(after);
    }

    // ---------- interleaving ----------

    /** What other requests do while this one awaits.  Callers may rely only on the contract. */
    method OthersAct(ghost cid: nat) returns (ghost steps: seq<Step>)
      modifies this
      ensures Value() == Run(old(Value()), steps)
      ensures forall i | 0 <= i < |steps| :: !ActsFor(steps[i], cid)
    {
      steps := [];
    }

    method Await(ghost cid: nat, ghost start: Vault, ghost steps: seq<Step>) returns (ghost steps': seq<Step>)
      requires Value() == Run(start, steps) && cid in completions
      modifies this
      ensures Value() == Run(start, steps') && cid in completions && completions[cid] == old(completions[cid])
    {
      ghost var others := OthersAct(cid);
      steps' := steps + others;
      RunAppend(start, steps, others);
      OthersLeaveCompletionAlone(Run(start, steps), others, cid);
    }

    // ---------- completion ----------

    /** Look at the stored object and compare it with what was declared. */
    method InspectUpload(ghost cid: nat, id: string, record: Record, ghost start: Vault, ghost steps: seq<Step>)
        returns (r: Result<Metadata, VaultError>, ghost steps': seq<Step>)
      requires Value() == Run(start, steps)
      requires cid in completions && completions[cid].phase == Begun && completions[cid].id == id && completions[cid].record == record
      modifies this
      ensures Value() == Run(start, steps') && cid in completions
      ensures match r
        case Failure(error) => completions[cid] == old(completions[cid]).(phase := Finished(Failure(error)))
        case Success(found) => completions[cid] == old(completions[cid]).(phase := Inspected, inspected := Some(found))
    {
      ghost var c := completions[cid];
      if id !in objects {
        r := Failure(ObjectMissing);
      } else {
        var found := objects[id].Inspection();
        if found.contentType != record.declared.contentType || found.sizeBytes != record.declared.sizeBytes || found.checksum != record.declared.checksum {
          r := Failure(IntegrityMismatch);
        } else {
          r := Success(found);
        }
      }
      completions := completions[cid := if r.Failure? then c.(phase := Finished(Failure(r.error))) else c.(phase := Inspected, inspected := Some(r.value))];
      steps' := Extend(start, steps, DoInspect(cid));
    }

    /** A rejected object is copied to quarantine before the record is marked. */
    method QuarantineObject(ghost cid: nat, id: string, answer: CopyAnswer, ghost start: Vault, ghost steps: seq<Step>)
        returns (r: Result<(), VaultError>, ghost steps': seq<Step>)
      requires Value() == Run(start, steps)
      requires cid in completions && completions[cid].phase == Scanned && completions[cid].id == id && completions[cid].outcome != Some(Clean)
      modifies this
      ensures Value() == Run(start, steps') && cid in completions
      ensures completions[cid] == old(completions[cid]).(phase := if r.Success? then Copied else Finished(Failure(r.error)))
    {
      ghost var c := completions[cid];
      r := Success(());
      if answer == NotCopied || id !in objects {
        r := Failure(StorageFailed);
      } else {
        copies := copies[id := objects[id]];
        if answer != CopiedVerified {
          r := Failure(QuarantineUnverified);
        }
      }
      completions := completions[cid := c.(phase := if r.Success? then Copied else Finished(Failure(r.error)))];
      steps' := Extend(start, steps, DoCopy(cid, answer));
    }

    method MarkOutcome(ghost cid: nat, id: string, found: Metadata, outcome: Outcome, now: int, ghost start: Vault, ghost steps: seq<Step>)
        returns (r: Result<Record, VaultError>, ghost steps': seq<Step>)
      requires Value() == Run(start, steps)
      requires cid in completions && ReadyToMark(completions[cid]) && completions[cid].id == id && completions[cid].at == now
      requires completions[cid].outcome == Some(outcome) && completions[cid].inspected == Some(found)
      modifies this
      ensures Value() == Run(start, steps') && cid in completions && completions[cid].phase == Finished(r)
    {
      ghost var c := completions[cid];
      match outcome {
        case Clean => r := Transition(id, Preserved, now, Some(found.sizeBytes), Some(found.checksum), None);
        case Rejected(reason) => r := Transition(id, Quarantined, now, None, None, Some(reason));
      }
      completions := completions[cid := c.(phase := Finished(r))];
      steps' := Extend(start, steps, DoMark(cid));
    }

    /** `outcome` and `copyAnswer` are what the scanner and the object store turn out to answer. */
    method CompleteUpload(ghost cid: nat, id: string, authorized: bool, now: int, outcome: Outcome, copyAnswer: CopyAnswer)
        returns (r: Result<Record, VaultError>, ghost steps: seq<Step>)
      requires cid !in completions
      modifies this
      ensures Value() == Run(old(Value()), steps)
      ensures MayBegin(old(Value()), id, authorized, now) ==> cid in completions && completions[cid].phase == Finished(r)
      ensures !MayBegin(old(Value()), id, authorized, now) ==>
        && Value() == old(Value())
        && r == Failure(if id !in old(rows) || !authorized then NotFound else if old(rows)[id].status != PendingUpload then WrongStatus else Expired)
    {
      ghost var start := Value();
      steps := [];
      if id !in rows || !authorized {
        return Failure(NotFound), steps;
      }
      var record := rows[id];
      if record.status != PendingUpload {
        return Failure(WrongStatus), steps;
      }
      if now > record.uploadExpiresAt {
        return Failure(Expired), steps;
      }
      completions := completions[cid := Completion(id, record, now, Begun, None, None, None)];
      steps := Extend(start, steps, DoBegin(cid, id, authorized, now));
      steps := Await(cid, start, steps);
      var found;
      found, steps := InspectUpload(cid, id, record, start, steps);
      if found.Failure? {
        return Failure(found.error), steps;
      }
      r, steps := ScanAndMark(cid, id, found.value, outcome, copyAnswer, now, start, steps);
    }

    method ScanAndMark(ghost cid: nat, id: string, found: Metadata, outcome: Outcome, copyAnswer: CopyAnswer, now: int, ghost start: Vault, ghost before: seq<Step>)
        returns (r: Result<Record, VaultError>, ghost steps: seq<Step>)
      requires Value() == Run(start, before)
      requires cid in completions && completions[cid].phase == Inspected && completions[cid].id == id && completions[cid].at == now
      requires completions[cid].inspected == Some(found)
      modifies this
      ensures Value() == Run(start, steps) && cid in completions && completions[cid].phase == Finished(r)
    {
      steps := Await(cid, start, before);
      completions := completions[cid := completions[cid].(phase := Scanned, outcome := Some(outcome), scanned := if id in objects then Some(objects[id]) else None)];
      steps := Extend(start, steps, DoScan(cid, outcome));
      steps := Await(cid, start, steps);
      if outcome != Clean {
        var copied;
        copied, steps := QuarantineObject(cid, id, copyAnswer, start, steps);
        if copied.Failure? {
          return Failure(copied.error), steps;
        }
        steps := Await(cid, start, steps);
      }
      r, steps := MarkOutcome(cid, id, found, outcome, now, start, steps);
    }

    // ---------- downloads ----------

    /** `audited` says whether the audit entry could be stored; without it nothing is returned. */
    method CreateDownloadRequest(ghost did: nat, id: string, authorized: bool, audited: bool) returns (granted: bool, ghost steps: seq<Step>)
      requires did !in downloads
      modifies this
      ensures Value() == Run(old(Value()), steps)
      ensures granted <==> id in old(rows) && authorized && old(rows)[id].status == Preserved && audited
      ensures granted ==> did in returned && did in downloads && downloads[did] == Download(id, old(rows)[id])
    {
      ghost var start := Value();
      steps := [];
      if id !in rows || !authorized || rows[id].status != Preserved {
        return false, steps;
      }
      var record := rows[id];
      downloads := downloads[did := Download(id, record)];
      steps := Extend(start, steps, DoSign(did, id, authorized));
      if !audited {
        return false, steps;
      }
      audit := audit + [AuditEntry(id, Some(record), record)];
      returned := returned + {did};
      steps := Extend(start, steps, DoReturn(did, audited));
      return true, steps;
    }
  }

  predicate ActsFor(step: Step, cid: nat) {
    match step
    case DoBegin(c, _, _, _) => c == cid
    case DoInspect(c) => c == cid
    case DoScan(c, _) => c == cid
    case DoCopy(c, _) => c == cid
    case DoMark(c) => c == cid
    case _ => false
  }

  ghost function Extend(start: Vault, steps: seq<Step>, step: Step): (extended: seq<Step>)
    ensures Run(start, extended) == Perform(Run(start, steps), step)
  {
    RunAppend(start, steps, [step]);
    steps + [step]
  }

  lemma OtherStepLeavesCompletion(v: Vault, step: Step, cid: nat)
    requires cid in v.completions && !ActsFor(step, cid)
    ensures cid in Perform(v, step).completions && Perform(v, step).completions[cid] == v.completions[cid]
  {
    match step
    case DoMark(c) => OtherMark(v, c, cid);
    case DoCopy(c, answer) => OtherCopy(v, c, answer, cid);
    case _ =>
  }

  lemma OtherMark(v: Vault, c: nat, cid: nat)
    requires cid in v.completions && c != cid
    ensures cid in Mark(v, c).completions && Mark(v, c).completions[cid] == v.completions[cid]
  {
  }

  lemma OtherCopy(v: Vault, c: nat, answer: CopyAnswer, cid: nat)
    requires cid in v.completions && c != cid
    ensures cid in Copy(v, c, answer).completions && Copy(v, c, answer).completions[cid] == v.completions[cid]
  {
  }

  lemma {:induction false} OthersLeaveCompletionAlone(v: Vault, steps: seq<Step>, cid: nat)
    requires cid in v.completions && forall i | 0 <= i < |steps| :: !ActsFor(steps[i], cid)
    ensures cid in Run(v, steps).completions && Run(v, steps).completions[cid] == v.completions[cid]
    decreases |steps|
  {
    if steps != [] {
      OtherStepLeavesCompletion(v, steps[0], cid);
      OthersLeaveCompletionAlone(Perform(v, steps[0]), steps[1..], cid);
    }
  }
}
