/** Copies in quarantine beside preserved records: exactly when there is one, and how uploads and a
    scanner that answers by content rule it out. */
module EvidenceQuarantine {
  import opened Wrappers
  import opened EvidenceVault
  import opened EvidenceRuns

  predicate RejectedIt(c: Completion) {
    c.outcome.Some? && c.outcome.value.Rejected?
  }

  /** The completion has copied the object of its record to quarantine. */
  predicate HasCopied(c: Completion) {
    RejectedIt(c) && (c.phase == Copied || (c.phase.Finished? && c.phase.result != Failure(StorageFailed)))
  }

  ghost predicate CopiedBySome(v: Vault, id: string) {
    exists cid :: cid in v.completions && v.completions[cid].id == id && HasCopied(v.completions[cid])
  }

  /** A completion that succeeded left its record as its scan said. */
  ghost predicate Succeeded(v: Vault, c: Completion) {
    c.phase.Finished? && c.phase.result.Success? ==>
      c.id in v.rows && c.outcome.Some? && v.rows[c.id].status == if c.outcome == Some(Clean) then Preserved else Quarantined
  }

  /** Why a rejecting completion that is over did not succeed. */
  predicate FailedKnown(c: Completion) {
    RejectedIt(c) && c.phase.Finished? && c.phase.result.Failure? ==> c.phase.result.error in {StorageFailed, QuarantineUnverified, ChangedConcurrently}
  }

  ghost predicate CopiesInv(v: Vault) {
    && (forall id :: id in v.copies <==> CopiedBySome(v, id))
    && (forall cid | cid in v.completions :: Succeeded(v, v.completions[cid]) && FailedKnown(v.completions[cid]))
  }

  // ---------- every step keeps this ----------

  /** What a step must do to one completion, leaving the others, to keep the invariant. */
  lemma OneCompletionChanges(before: Vault, after: Vault, cid: nat)
    requires CopiesInv(before) && cid in after.completions && after.completions == before.completions[cid := after.completions[cid]]
    requires RowsAdvance(before.rows, after.rows)
    requires cid in before.completions && HasCopied(before.completions[cid]) ==>
      HasCopied(after.completions[cid]) && after.completions[cid].id == before.completions[cid].id
    requires after.copies.Keys == before.copies.Keys + if HasCopied(after.completions[cid]) then {after.completions[cid].id} else {}
    requires Succeeded(after, after.completions[cid]) && FailedKnown(after.completions[cid])
    ensures CopiesInv(after)
  {
    forall id ensures id in after.copies <==> CopiedBySome(after, id) {
      if id in before.copies {
        var c :| c in before.completions && before.completions[c].id == id && HasCopied(before.completions[c]);
        assert c in after.completions && after.completions[c].id == id && HasCopied(after.completions[c]);
      }
      if CopiedBySome(after, id) {
        var c :| c in after.completions && after.completions[c].id == id && HasCopied(after.completions[c]);
        if c != cid {
          assert CopiedBySome(before, id);
        }
      }
    }
    forall other | other in after.completions ensures Succeeded(after, after.completions[other]) && FailedKnown(after.completions[other]) {
      if other != cid {
        OthersSucceeded(before, after, before.completions[other]);
      }
    }
  }

  lemma OthersSucceeded(before: Vault, after: Vault, c: Completion)
    requires Succeeded(before, c) && RowsAdvance(before.rows, after.rows)
    ensures Succeeded(after, c)
  {
    if c.phase.Finished? && c.phase.result.Success? {
      assert MayBecome(before.rows[c.id], after.rows[c.id]);
    }
  }

  lemma NoCompletionChanges(before: Vault, after: Vault)
    requires CopiesInv(before) && after.completions == before.completions && after.copies == before.copies && RowsAdvance(before.rows, after.rows)
    ensures CopiesInv(after)
  {
    forall id ensures CopiedBySome(after, id) <==> CopiedBySome(before, id) {}
    forall cid | cid in after.completions ensures Succeeded(after, after.completions[cid]) {
      OthersSucceeded(before, after, before.completions[cid]);
    }
  }

  lemma SameRows(rows: map<string, Record>)
    ensures RowsAdvance(rows, rows)
  {
  }

  lemma CopyKeepsCopies(v: Vault, cid: nat, answer: CopyAnswer)
    requires CopiesInv(v) && MayCopy(v, cid)
    requires CompletionInv(v, v.completions[cid])
    ensures CopiesInv(Copy(v, cid, answer))
  {
    SameRows(v.rows);
    var c, next := v.completions[cid], Copy(v, cid, answer);
    assert next.completions == v.completions[cid := c.(phase := next.completions[cid].phase)];
    OneCompletionChanges(v, next, cid);
  }

  lemma MarkedCompletion(v: Vault, cid: nat)
    requires cid in v.completions && ReadyToMark(v.completions[cid]) && CompletionInv(v, v.completions[cid])
    ensures var c, next := v.completions[cid], Mark(v, cid);
      && next.completions == v.completions[cid := c.(phase := next.completions[cid].phase)] && next.copies == v.copies
      && next.completions[cid].phase.Finished?
      && (next.completions[cid].phase.result.Failure? ==> next.completions[cid].phase.result.error == ChangedConcurrently)
      && Succeeded(next, next.completions[cid])
  {
  }

  lemma MarkKeepsCopies(v: Vault, cid: nat)
    requires CopiesInv(v) && cid in v.completions && ReadyToMark(v.completions[cid])
    requires CompletionInv(v, v.completions[cid]) && RowsAdvance(v.rows, Mark(v, cid).rows)
    ensures CopiesInv(Mark(v, cid))
  {
    MarkedCompletion(v, cid);
    assert HasCopied(v.completions[cid]) ==> CopiedBySome(v, v.completions[cid].id);
    OneCompletionChanges(v, Mark(v, cid), cid);
  }

  lemma InspectKeepsCopies(v: Vault, cid: nat)
    requires CopiesInv(v) && cid in v.completions && v.completions[cid].phase == Begun && v.completions[cid].outcome.None?
    ensures CopiesInv(Inspect(v, cid))
  {
    SameRows(v.rows);
    var c, next := v.completions[cid], Inspect(v, cid);
    assert next.completions == v.completions[cid := next.completions[cid]] && next.completions[cid].outcome.None? && next.completions[cid].id == c.id;
    assert next.completions[cid].phase.Finished? ==> next.completions[cid].phase.result.Failure?;
    OneCompletionChanges(v, next, cid);
  }

  lemma ScanKeepsCopies(v: Vault, cid: nat, outcome: Outcome)
    requires CopiesInv(v) && cid in v.completions && v.completions[cid].phase == Inspected
    ensures CopiesInv(Scan(v, cid, outcome))
  {
    SameRows(v.rows);
    OneCompletionChanges(v, Scan(v, cid, outcome), cid);
  }

  lemma BeginKeepsCopies(v: Vault, cid: nat, id: string, authorized: bool, now: int)
    requires CopiesInv(v) && cid !in v.completions && MayBegin(v, id, authorized, now)
    ensures CopiesInv(Begin(v, cid, id, authorized, now))
  {
    SameRows(v.rows);
    OneCompletionChanges(v, Begin(v, cid, id, authorized, now), cid);
  }

  /** Which completion a step changes, if it changes one. */
  predicate Changes(v: Vault, step: Step, cid: nat) {
    match step
    case DoBegin(c, id, authorized, now) => c == cid && cid !in v.completions && MayBegin(v, id, authorized, now)
    case DoInspect(c) => c == cid && cid in v.completions && v.completions[cid].phase == Begun
    case DoScan(c, _) => c == cid && cid in v.completions && v.completions[cid].phase == Inspected
    case DoCopy(c, _) => c == cid && MayCopy(v, cid)
    case DoMark(c) => c == cid && cid in v.completions && ReadyToMark(v.completions[cid])
    case _ => false
  }

  lemma ChangeKeepsCopies(v: Vault, step: Step, cid: nat)
    requires CopiesInv(v) && Changes(v, step, cid)
    requires cid in v.completions ==> CompletionInv(v, v.completions[cid])
    requires RowsAdvance(v.rows, Perform(v, step).rows)
    ensures CopiesInv(Perform(v, step))
  {
    match step
    case DoBegin(_, id, authorized, now) => BeginKeepsCopies(v, cid, id, authorized, now);
    case DoInspect(_) => InspectKeepsCopies(v, cid);
    case DoScan(_, outcome) => ScanKeepsCopies(v, cid, outcome);
    case DoCopy(_, answer) => CopyKeepsCopies(v, cid, answer);
    case DoMark(_) => MarkKeepsCopies(v, cid);
  }

  lemma UnchangedCompletions(v: Vault, step: Step)
    requires forall cid :: !Changes(v, step, cid)
    ensures Perform(v, step).completions == v.completions && Perform(v, step).copies == v.copies
  {
    assert step.DoBegin? || step.DoInspect? || step.DoScan? || step.DoCopy? || step.DoMark? ==> !Changes(v, step, step.cid);
  }

  lemma StepKeepsCopies(v: Vault, step: Step)
    requires CopiesInv(v) && RowsAdvance(v.rows, Perform(v, step).rows)
    requires forall cid | cid in v.completions :: CompletionInv(v, v.completions[cid])
    ensures CopiesInv(Perform(v, step))
  {
    if cid :| Changes(v, step, cid) {
      ChangeKeepsCopies(v, step, cid);
    } else {
      UnchangedCompletions(v, step);
      NoCompletionChanges(v, Perform(v, step));
    }
  }

  lemma {:induction false} RunKeepsCopies(v: Vault, steps: seq<Step>)
    requires Inv(v) && CopiesInv(v)
    ensures Inv(Run(v, steps)) && CopiesInv(Run(v, steps))
    decreases |steps|
  {
    if steps != [] {
      StepIsGood(v, steps[0]);
      StepKeepsCopies(v, steps[0]);
      RunKeepsCopies(Perform(v, steps[0]), steps[1..]);
    }
  }

  // ---------- when a preserved record has a copy ----------

  /** A completion whose scan rejected the record's object, and which is about to find that it came too
      late, has found so, or failed after its copy was made. */
  predicate CameToNothing(c: Completion) {
    RejectedIt(c) && (c.phase == Copied || c.phase == Finished(Failure(ChangedConcurrently)) || c.phase == Finished(Failure(QuarantineUnverified)))
  }

  /** A preserved record has a copy of its object in quarantine exactly when some completion of it
      rejected the object, copied it, and did not get to mark the record. */
  lemma PreservedWithCopyExactlyWhen(steps: seq<Step>, id: string)
    requires id in Run(EMPTY, steps).rows && Run(EMPTY, steps).rows[id].status == Preserved
    ensures var v := Run(EMPTY, steps);
      id in v.copies <==> exists cid :: cid in v.completions && v.completions[cid].id == id && CameToNothing(v.completions[cid])
  {
    var v := Run(EMPTY, steps);
    RunKeepsCopies(EMPTY, steps);
    if id in v.copies {
      var cid :| cid in v.completions && v.completions[cid].id == id && HasCopied(v.completions[cid]);
      assert Succeeded(v, v.completions[cid]) && FailedKnown(v.completions[cid]);
      assert CameToNothing(v.completions[cid]);
    }
    if cid :| cid in v.completions && v.completions[cid].id == id && CameToNothing(v.completions[cid]) {
      assert CopiedBySome(v, id);
    }
  }

  /** When every copy that is made can be verified, such a completion is one that overlapped the one
      that preserved the record: it read the record while it was pending, and its own mark has found or
      will find the record settled. */
  lemma CopyMeansOverlap(steps: seq<Step>, id: string, cid: nat)
    requires id in Run(EMPTY, steps).rows && Run(EMPTY, steps).rows[id].status == Preserved
    requires var v := Run(EMPTY, steps);
      cid in v.completions && v.completions[cid].id == id && CameToNothing(v.completions[cid]) && v.completions[cid].phase != Finished(Failure(QuarantineUnverified))
    ensures var v := Run(EMPTY, steps);
      && v.completions[cid].record.status == PendingUpload
      && (exists other | other in v.completions && other != cid :: v.completions[other].id == id && v.completions[other].outcome == Some(Clean))
      && (v.completions[cid].phase == Finished(Failure(ChangedConcurrently)) || Mark(v, cid).completions[cid].phase == Finished(Failure(ChangedConcurrently)))
  {
    var v := Run(EMPTY, steps);
    RunIsGood(EMPTY, steps);
    assert RowInv(v, id) && CompletionInv(v, v.completions[cid]);
    OverlapOf(v, id, cid);
  }

  lemma OverlapOf(v: Vault, id: string, cid: nat)
    requires id in v.rows && v.rows[id].status == Preserved && RowInv(v, id)
    requires cid in v.completions && v.completions[cid].id == id && CameToNothing(v.completions[cid])
    ensures exists other | other in v.completions && other != cid :: v.completions[other].id == id && v.completions[other].outcome == Some(Clean)
    ensures v.completions[cid].phase == Copied ==> Mark(v, cid).completions[cid].phase == Finished(Failure(ChangedConcurrently))
  {
    var other :| other in v.completions && Found(v.completions[other], id, Clean, v.rows[id].completedAt.value);
    assert other != cid;
  }

  // ---------- it happens ----------

  lemma RunOne(v: Vault, step: Step, rest: seq<Step>)
    ensures Run(v, [step] + rest) == Run(Perform(v, step), rest)
  {
    assert ([step] + rest)[1..] == rest;
  }

  /** Two completions have scanned the object of a pending record, and disagree. */
  ghost predicate Disagree(v: Vault, id: string, stored: StoredObject, rejecting: nat, clean: nat) {
    && rejecting != clean && rejecting in v.completions && clean in v.completions
    && v.completions[rejecting].id == id && v.completions[clean].id == id
    && v.completions[rejecting].phase == Scanned && RejectedIt(v.completions[rejecting])
    && v.completions[clean].phase == Scanned && v.completions[clean].outcome == Some(Clean) && v.completions[clean].inspected.Some?
    && id in v.rows && v.rows[id].status == PendingUpload && id in v.objects && v.objects[id] == stored
  }

  lemma RaceLeavesCopy(v: Vault, id: string, stored: StoredObject, rejecting: nat, clean: nat)
    requires Disagree(v, id, stored, rejecting, clean)
    ensures var after := Run(v, [DoCopy(rejecting, CopiedVerified), DoMark(clean), DoMark(rejecting)]);
      id in after.rows && after.rows[id].status == Preserved && id in after.copies && after.copies[id] == stored
  {
    var copied := Copy(v, rejecting, CopiedVerified);
    assert copied.completions[clean] == v.completions[clean];
    var marked := Mark(copied, clean);
    assert marked.completions[rejecting] == copied.completions[rejecting];
    RunOne(v, DoCopy(rejecting, CopiedVerified), [DoMark(clean), DoMark(rejecting)]);
    RunOne(copied, DoMark(clean), [DoMark(rejecting)]);
    RunOne(marked, DoMark(rejecting), []);
    assert [DoMark(rejecting)] + [] == [DoMark(rejecting)] && [DoMark(clean)] + [DoMark(rejecting)] == [DoMark(clean), DoMark(rejecting)];
    assert [DoCopy(rejecting, CopiedVerified)] + [DoMark(clean), DoMark(rejecting)] == [DoCopy(rejecting, CopiedVerified), DoMark(clean), DoMark(rejecting)];
  }

  /** One call of completeUpload up to its scan. */
  lemma ScansAlone(v: Vault, cid: nat, id: string, now: int, outcome: Outcome)
    requires cid !in v.completions && MayBegin(v, id, true, now) && id in v.objects && v.objects[id].Inspection() == v.rows[id].declared
    ensures var after := Run(v, [DoBegin(cid, id, true, now), DoInspect(cid), DoScan(cid, outcome)]);
      after == SetCompletion(v, cid, Completion(id, v.rows[id], now, Scanned, Some(v.rows[id].declared), Some(outcome), Some(v.objects[id])))
  {
    var begun := Begin(v, cid, id, true, now);
    var inspected := Inspect(begun, cid);
    RunOne(v, DoBegin(cid, id, true, now), [DoInspect(cid), DoScan(cid, outcome)]);
    RunOne(begun, DoInspect(cid), [DoScan(cid, outcome)]);
    RunOne(inspected, DoScan(cid, outcome), []);
    assert [DoScan(cid, outcome)] + [] == [DoScan(cid, outcome)] && [DoInspect(cid)] + [DoScan(cid, outcome)] == [DoInspect(cid), DoScan(cid, outcome)];
    assert [DoBegin(cid, id, true, now)] + [DoInspect(cid), DoScan(cid, outcome)] == [DoBegin(cid, id, true, now), DoInspect(cid), DoScan(cid, outcome)];
    assert inspected.completions == v.completions[cid := Completion(id, v.rows[id], now, Inspected, Some(v.rows[id].declared), None, None)];
  }

  function Calls(id: string, input: Intent, stored: StoredObject, now: int): seq<Step> {
    [DoCreate(id, input, true, now, MAX_UPLOAD_TTL_MS), Put(id, stored)]
    + [DoBegin(0, id, true, now), DoInspect(0), DoScan(0, Rejected("unsafe"))]
    + [DoBegin(1, id, true, now), DoInspect(1), DoScan(1, Clean)]
    + [DoCopy(0, CopiedVerified), DoMark(1), DoMark(0)]
  }

  /** From the empty vault: one upload, and two completions whose scans disagree.  The record ends up
      preserved, with a copy of its object in quarantine. */
  lemma RaceHappens(id: string, input: Intent, stored: StoredObject, now: int)
    requires ValidIntent(input, now, MAX_UPLOAD_TTL_MS) && stored.Inspection() == input.declared
    ensures var v := Run(EMPTY, Calls(id, input, stored, now)); id in v.rows && v.rows[id].status == Preserved && id in v.copies
  {
    var first, second, third := [DoCreate(id, input, true, now, MAX_UPLOAD_TTL_MS), Put(id, stored)],
      [DoBegin(0, id, true, now), DoInspect(0), DoScan(0, Rejected("unsafe"))], [DoBegin(1, id, true, now), DoInspect(1), DoScan(1, Clean)];
    var created := Create(EMPTY, id, input, true, now, MAX_UPLOAD_TTL_MS).0;
    var uploaded := Upload(created, id, stored);
    RunOne(EMPTY, first[0], [first[1]]);
    RunOne(created, first[1], []);
    assert [first[0]] + [first[1]] == first && [first[1]] + [] == [first[1]];
    ScansAlone(uploaded, 0, id, now, Rejected("unsafe"));
    var rejected := Run(uploaded, second);
    ScansAlone(rejected, 1, id, now, Clean);
    var both := Run(rejected, third);
    RunAppend(EMPTY, first, second);
    RunAppend(EMPTY, first + second, third);
    RunAppend(EMPTY, first + second + third, [DoCopy(0, CopiedVerified), DoMark(1), DoMark(0)]);
    assert Disagree(both, id, stored, 0, 1);
    RaceLeavesCopy(both, id, stored, 0, 1);
  }

  // ---------- when it cannot happen ----------

  /** The scanner's outcome is a function of the object it looks at. */
  predicate ByContent(v: Vault, step: Step, scanner: StoredObject -> Outcome) {
    step.DoScan? && step.cid in v.completions && v.completions[step.cid].id in v.objects ==>
      step.outcome == scanner(v.objects[v.completions[step.cid].id])
  }

  predicate AllByContent(v: Vault, steps: seq<Step>, scanner: StoredObject -> Outcome)
    decreases |steps|
  {
    steps == [] || (ByContent(v, steps[0], scanner) && AllByContent(Perform(v, steps[0]), steps[1..], scanner))
  }

  ghost predicate OutcomesInv(v: Vault, scanner: StoredObject -> Outcome) {
    forall cid | cid in v.completions && v.completions[cid].outcome.Some? ::
      v.completions[cid].id in v.objects && v.completions[cid].outcome.value == scanner(v.objects[v.completions[cid].id])
  }

  /** The objects that completions have looked at are still there, unchanged. */
  lemma ObjectsStay(v: Vault, step: Step, id: string)
    requires ObjectsInv(v) && Enforced(v, step) && id in v.objects
    ensures id in Perform(v, step).objects && Perform(v, step).objects[id] == v.objects[id]
  {
    if step.Put? && step.id == id {
      InspectionIdentifies(step.stored, v.objects[id]);
    }
  }

  lemma OutcomeOfStep(v: Vault, step: Step, cid: nat)
    requires cid in Perform(v, step).completions && Perform(v, step).completions[cid].outcome.Some?
    ensures cid in v.completions && Perform(v, step).completions[cid].id == v.completions[cid].id
    ensures Perform(v, step).completions[cid].outcome == v.completions[cid].outcome
      || (step == DoScan(cid, Perform(v, step).completions[cid].outcome.value) && v.completions[cid].phase == Inspected)
  {
    match step
    case DoMark(c) => MarkKeepsOutcome(v, c, cid);
    case DoCopy(c, answer) => CopyKeepsOutcome(v, c, answer, cid);
    case DoInspect(c) => InspectKeepsOutcome(v, c, cid);
    case _ =>
  }

  lemma MarkKeepsOutcome(v: Vault, c: nat, cid: nat)
    requires cid in Mark(v, c).completions
    ensures cid in v.completions && Mark(v, c).completions[cid].id == v.completions[cid].id && Mark(v, c).completions[cid].outcome == v.completions[cid].outcome
  {
  }

  lemma CopyKeepsOutcome(v: Vault, c: nat, answer: CopyAnswer, cid: nat)
    requires cid in Copy(v, c, answer).completions
    ensures cid in v.completions && Copy(v, c, answer).completions[cid].id == v.completions[cid].id && Copy(v, c, answer).completions[cid].outcome == v.completions[cid].outcome
  {
  }

  lemma InspectKeepsOutcome(v: Vault, c: nat, cid: nat)
    requires cid in Inspect(v, c).completions
    ensures cid in v.completions && Inspect(v, c).completions[cid].id == v.completions[cid].id && Inspect(v, c).completions[cid].outcome == v.completions[cid].outcome
  {
  }

  lemma StepKeepsOutcomes(v: Vault, step: Step, scanner: StoredObject -> Outcome)
    requires ObjectsInv(v) && OutcomesInv(v, scanner) && Enforced(v, step) && ByContent(v, step, scanner)
    requires forall cid | cid in v.completions :: CompletionInv(v, v.completions[cid])
    ensures OutcomesInv(Perform(v, step), scanner)
  {
    var next := Perform(v, step);
    forall cid | cid in next.completions && next.completions[cid].outcome.Some?
      ensures next.completions[cid].id in next.objects && next.completions[cid].outcome.value == scanner(next.objects[next.completions[cid].id])
    {
      OutcomeOfStep(v, step, cid);
      assert CompletionInv(v, v.completions[cid]);
      ObjectsStay(v, step, v.completions[cid].id);
    }
  }

  lemma {:induction false} RunKeepsOutcomes(v: Vault, steps: seq<Step>, scanner: StoredObject -> Outcome)
    requires Inv(v) && ObjectsInv(v) && OutcomesInv(v, scanner) && AllEnforced(v, steps) && AllByContent(v, steps, scanner)
    ensures OutcomesInv(Run(v, steps), scanner)
    decreases |steps|
  {
    if steps != [] {
      StepIsGood(v, steps[0]);
      EnforcedStep(v, steps[0]);
      StepKeepsOutcomes(v, steps[0], scanner);
      RunKeepsOutcomes(Perform(v, steps[0]), steps[1..], scanner);
    }
  }

  /** With uploads through signed requests and a scanner that always says the same of the same object,
      no preserved record has a copy in quarantine, however completions overlap or copies fail. */
  lemma SteadyScannerLeavesNoCopy(steps: seq<Step>, scanner: StoredObject -> Outcome, id: string)
    requires AllEnforced(EMPTY, steps) && AllByContent(EMPTY, steps, scanner)
    requires id in Run(EMPTY, steps).rows && Run(EMPTY, steps).rows[id].status == Preserved
    ensures id !in Run(EMPTY, steps).copies
  {
    var v := Run(EMPTY, steps);
    RunKeepsOutcomes(EMPTY, steps, scanner);
    RunKeepsCopies(EMPTY, steps);
    assert RowInv(v, id);
    var clean :| clean in v.completions && Found(v.completions[clean], id, Clean, v.rows[id].completedAt.value);
    forall cid | cid in v.completions && v.completions[cid].id == id ensures !HasCopied(v.completions[cid]) {
      assert v.completions[cid].outcome.Some? ==> v.completions[cid].outcome == v.completions[clean].outcome;
    }
  }
}
