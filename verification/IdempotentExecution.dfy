/** executeIdempotently over the in-memory idempotency adapter, for any number of requests whose
    steps interleave at the points where the source awaits. */
module IdempotentExecution {
  import opened Wrappers

  type RequestId = nat

  datatype Request = Request(scope: string, key: string, fingerprint: string)

  function Composite(scope: string, key: string): string {
    scope + ":" + key
  }

  datatype Record<V> = Record(fingerprint: string, value: V)

  datatype RequestError = InFlight | KeyReused | OperationFailed

  /** Where a request stands.  Active requests hold their composite key. */
  datatype Phase<V> =
    | Entered
    | Running
    | Produced(value: V)
    | Leaving(result: Result<V, RequestError>)
    | Done(outcome: Result<V, RequestError>)

  datatype Progress<V> = Progress(request: Request, phase: Phase<V>)
  {
    function Key(): string {
      Composite(request.scope, request.key)
    }

    predicate Active() {
      !phase.Done?
    }
  }

  /** A history variable: an operation that ran to success. */
  datatype Execution<V> = Execution(id: RequestId, composite: string, fingerprint: string, value: V)

  datatype System<V> = System(
    records: map<string, Record<V>>,
    inFlight: set<string>,
    progress: map<RequestId, Progress<V>>,
    executions: seq<Execution<V>>)

  datatype Step<V> =
    | Arrive(id: RequestId, request: Request)
    | Look(id: RequestId)
    | Operate(id: RequestId, made: Option<V>)
    | Store(id: RequestId)
    | Leave(id: RequestId)

  function Move<V>(sys: System<V>, id: RequestId, phase: Phase<V>): System<V>
    requires id in sys.progress
  {
    sys.(progress := sys.progress[id := sys.progress[id].(phase := phase)])
  }

  function AfterLook<V>(found: Option<Record<V>>, fingerprint: string): Phase<V> {
    match found
    case None => Running
    case Some(record) => Leaving(if record.fingerprint != fingerprint then Failure(KeyReused) else Success(record.value))
  }

  function Lookup<V>(records: map<string, Record<V>>, composite: string): Option<Record<V>> {
    if composite in records then Some(records[composite]) else None
  }

  /** put never overwrites. */
  function PutOnce<V>(records: map<string, Record<V>>, composite: string, record: Record<V>): map<string, Record<V>> {
    if composite in records then records else records[composite := record]
  }

  predicate Enabled<V>(sys: System<V>, step: Step<V>) {
    if step.Arrive? then step.id !in sys.progress
    else step.id in sys.progress &&
         match step
         case Look(id) => sys.progress[id].phase.Entered?
         case Operate(id, _) => sys.progress[id].phase.Running?
         case Store(id) => sys.progress[id].phase.Produced?
         case _ => sys.progress[step.id].phase.Leaving?
  }

  /** A step that is not enabled does nothing. */
  function Perform<V>(sys: System<V>, step: Step<V>): System<V> {
    if !Enabled(sys, step) then sys
    else match step
      case Arrive(id, request) =>
        var composite := Composite(request.scope, request.key);
        if composite in sys.inFlight then sys.(progress := sys.progress[id := Progress(request, Done(Failure(InFlight)))])
        else sys.(inFlight := sys.inFlight + {composite}, progress := sys.progress[id := Progress(request, Entered)])
      case Look(id) =>
        var p := sys.progress[id];
        Move(sys, id, AfterLook(Lookup(sys.records, p.Key()), p.request.fingerprint))
      case Operate(id, made) =>
        var p := sys.progress[id];
        (match made
         case None => Move(sys, id, Leaving(Failure(OperationFailed)))
         case Some(value) =>
           Move(sys, id, Produced(value)).(executions := sys.executions + [Execution(id, p.Key(), p.request.fingerprint, value)]))
      case Store(id) =>
        var p := sys.progress[id];
        Move(sys, id, Leaving(Success(p.phase.value)))
        .(records := PutOnce(sys.records, p.Key(), Record(p.request.fingerprint, p.phase.value)))
      case Leave(id) =>
        var p := sys.progress[id];
        Move(sys, id, Done(p.phase.result)).(inFlight := sys.inFlight - {p.Key()})
  }

  function PerformAll<V>(sys: System<V>, steps: seq<Step<V>>): System<V>
    decreases |steps|
  {
    if steps == [] then sys else PerformAll(Perform(sys, steps[0]), steps[1..])
  }

  lemma {:induction false} PerformAppend<V>(sys: System<V>, steps: seq<Step<V>>, more: seq<Step<V>>)
    ensures PerformAll(sys, steps + more) == PerformAll(PerformAll(sys, steps), more)
    decreases |steps|
  {
    if steps == [] {
      assert steps + more == more;
    } else {
      assert (steps + more)[1..] == steps[1..] + more;
      PerformAppend(Perform(sys, steps[0]), steps[1..], more);
    }
  }

  function Start<V>(): System<V> {
    System(map[], {}, map[], [])
  }

  // ---------- the invariant ----------

  ghost predicate LocksMatch<V>(sys: System<V>) {
    && (forall id | id in sys.progress && sys.progress[id].Active() :: sys.progress[id].Key() in sys.inFlight)
    && (forall a, b | a in sys.progress && b in sys.progress && a != b && sys.progress[a].Active() && sys.progress[b].Active() ::
          sys.progress[a].Key() != sys.progress[b].Key())
    && (forall composite | composite in sys.inFlight :: Held(sys, composite))
  }

  ghost predicate Held<V>(sys: System<V>, composite: string) {
    exists id :: id in sys.progress && sys.progress[id].Active() && sys.progress[id].Key() == composite
  }

  /** The composite has been executed, with this fingerprint and value. */
  ghost predicate Executed<V>(sys: System<V>, composite: string, record: Record<V>) {
    exists i :: 0 <= i < |sys.executions| && Matches(sys.executions[i], composite, record)
  }

  predicate Matches<V(==)>(e: Execution<V>, composite: string, record: Record<V>) {
    e.composite == composite && e.fingerprint == record.fingerprint && e.value == record.value
  }

  /** What each phase of a request knows about the records. */
  ghost predicate PhaseInv<V>(sys: System<V>, id: RequestId)
    requires id in sys.progress
  {
    var p := sys.progress[id];
    match p.phase
    case Entered => true
    case Running => p.Key() !in sys.records && forall e | e in sys.executions :: e.composite != p.Key()
    case Produced(value) => p.Key() !in sys.records && Execution(id, p.Key(), p.request.fingerprint, value) in sys.executions
    case Leaving(result) => ResultInv(sys, p, result)
    case Done(result) => ResultInv(sys, p, result)
  }

  ghost predicate ResultInv<V>(sys: System<V>, p: Progress<V>, result: Result<V, RequestError>) {
    match result
    case Success(value) => p.Key() in sys.records && sys.records[p.Key()] == Record(p.request.fingerprint, value)
    case Failure(KeyReused) => p.Key() in sys.records && sys.records[p.Key()].fingerprint != p.request.fingerprint
    case Failure(_) => true
  }

  /** An execution has been recorded, or its request is about to record it. */
  ghost predicate Accounted<V>(sys: System<V>, e: Execution<V>) {
    || (e.composite in sys.records && Matches(e, e.composite, sys.records[e.composite]))
    || (e.id in sys.progress && sys.progress[e.id].Key() == e.composite && sys.progress[e.id].phase == Produced(e.value))
  }

  ghost predicate ExecutionsDistinct<V>(sys: System<V>) {
    forall i, j | 0 <= i < j < |sys.executions| :: sys.executions[i].composite != sys.executions[j].composite
  }

  ghost predicate PhasesInv<V>(sys: System<V>) {
    forall id | id in sys.progress :: PhaseInv(sys, id)
  }

  ghost predicate HistoryInv<V>(sys: System<V>) {
    && ExecutionsDistinct(sys)
    && (forall e | e in sys.executions :: Accounted(sys, e))
    && (forall composite | composite in sys.records :: Executed(sys, composite, sys.records[composite]))
  }

  ghost predicate Inv<V>(sys: System<V>) {
    LocksMatch(sys) && PhasesInv(sys) && HistoryInv(sys)
  }

  // ---------- each step keeps it ----------

  lemma HolderOf<V>(sys: System<V>, composite: string) returns (id: RequestId)
    requires Held(sys, composite)
    ensures id in sys.progress && sys.progress[id].Active() && sys.progress[id].Key() == composite
  {
    id :| id in sys.progress && sys.progress[id].Active() && sys.progress[id].Key() == composite;
  }

  lemma ArriveKeepsLocks<V>(sys: System<V>, id: RequestId, request: Request)
    requires LocksMatch(sys) && id !in sys.progress
    ensures LocksMatch(Perform(sys, Arrive(id, request)))
  {
    var next := Perform(sys, Arrive(id, request));
    forall composite | composite in next.inFlight ensures Held(next, composite) {
      if composite in sys.inFlight {
        var holder := HolderOf(sys, composite);
        assert next.progress[holder] == sys.progress[holder];
      } else {
        assert next.progress[id].Key() == composite;
      }
    }
  }

  /** Moving one active request to another active phase keeps the locks. */
  lemma MoveKeepsLocks<V>(sys: System<V>, next: System<V>, id: RequestId, phase: Phase<V>)
    requires LocksMatch(sys) && id in sys.progress && sys.progress[id].Active() && !phase.Done?
    requires next.inFlight == sys.inFlight && next.progress == Move(sys, id, phase).progress
    ensures LocksMatch(next)
  {
    forall composite | composite in next.inFlight ensures Held(next, composite) {
      var holder := HolderOf(sys, composite);
      assert next.progress[holder].Active() && next.progress[holder].Key() == composite;
    }
  }

  lemma LeaveKeepsLocks<V>(sys: System<V>, id: RequestId)
    requires LocksMatch(sys) && Enabled(sys, Leave(id))
    ensures LocksMatch(Perform(sys, Leave(id)))
  {
    var next := Perform(sys, Leave(id));
    forall composite | composite in next.inFlight ensures Held(next, composite) {
      var holder := HolderOf(sys, composite);
      assert next.progress[holder] == sys.progress[holder];
    }
  }

  /** Only records and executions matter to a phase, so requests that stay put keep what they know. */
  lemma SamePhase<V>(sys: System<V>, next: System<V>, id: RequestId)
    requires id in sys.progress && id in next.progress && next.progress[id] == sys.progress[id]
    requires next.records == sys.records && next.executions == sys.executions
    requires PhaseInv(sys, id)
    ensures PhaseInv(next, id)
  {
  }

  lemma SameHistory<V>(sys: System<V>, next: System<V>)
    requires HistoryInv(sys) && next.records == sys.records && next.executions == sys.executions
    requires forall e | e in sys.executions && Accounted(sys, e) :: Accounted(next, e)
    ensures HistoryInv(next)
  {
    forall composite | composite in next.records ensures Executed(next, composite, next.records[composite]) {
      assert Executed(sys, composite, sys.records[composite]);
    }
  }

  /** A request that changes phase, but neither records nor executions. */
  lemma MoveKeepsRest<V>(sys: System<V>, next: System<V>, id: RequestId)
    requires PhasesInv(sys) && HistoryInv(sys)
    requires next.records == sys.records && next.executions == sys.executions
    requires id in next.progress && next.progress == sys.progress[id := next.progress[id]]
    requires id in sys.progress ==> !sys.progress[id].phase.Produced?
    requires PhaseInv(next, id)
    ensures PhasesInv(next) && HistoryInv(next)
  {
    forall other | other in next.progress && other != id ensures PhaseInv(next, other) {
      SamePhase(sys, next, other);
    }
    forall e | e in sys.executions && Accounted(sys, e) ensures Accounted(next, e) {}
    SameHistory(sys, next);
  }

  lemma ArriveKeepsInv<V>(sys: System<V>, id: RequestId, request: Request)
    requires Inv(sys) && id !in sys.progress
    ensures Inv(Perform(sys, Arrive(id, request)))
  {
    ArriveKeepsLocks(sys, id, request);
    MoveKeepsRest(sys, Perform(sys, Arrive(id, request)), id);
  }

  lemma LookKeepsInv<V>(sys: System<V>, id: RequestId)
    requires Inv(sys) && Enabled(sys, Look(id))
    ensures Inv(Perform(sys, Look(id)))
  {
    var next := Perform(sys, Look(id));
    MoveKeepsLocks(sys, next, id, next.progress[id].phase);
    if next.progress[id].phase.Running? {
      UnrecordedIsUnexecuted(sys, id);
    }
    MoveKeepsRest(sys, next, id);
  }

  /** The holder of a key that is not recorded, and that has itself produced nothing, knows that no
      operation for the key has run: whoever ran one would still hold the key. */
  lemma UnrecordedIsUnexecuted<V>(sys: System<V>, id: RequestId)
    requires LocksMatch(sys) && HistoryInv(sys) && id in sys.progress
    requires sys.progress[id].phase.Entered? && sys.progress[id].Key() !in sys.records
    ensures forall e | e in sys.executions :: e.composite != sys.progress[id].Key()
  {
    forall e | e in sys.executions ensures e.composite != sys.progress[id].Key() {
      assert Accounted(sys, e);
    }
  }

  lemma OperateKeepsInv<V>(sys: System<V>, id: RequestId, made: Option<V>)
    requires Inv(sys) && Enabled(sys, Operate(id, made))
    ensures Inv(Perform(sys, Operate(id, made)))
  {
    var next := Perform(sys, Operate(id, made));
    MoveKeepsLocks(sys, next, id, next.progress[id].phase);
    assert PhaseInv(sys, id);
    if made.None? {
      MoveKeepsRest(sys, next, id);
    } else {
      SuccessKeepsPhases(sys, id, made.value);
      SuccessKeepsHistory(sys, id, made.value);
    }
  }

  lemma SuccessKeepsPhases<V>(sys: System<V>, id: RequestId, value: V)
    requires Inv(sys) && Enabled(sys, Operate(id, Some(value)))
    ensures PhasesInv(Perform(sys, Operate(id, Some(value))))
  {
    var next := Perform(sys, Operate(id, Some(value)));
    assert PhaseInv(sys, id);
    forall other | other in next.progress && other != id ensures PhaseInv(next, other) {
      assert PhaseInv(sys, other);
    }
  }

  lemma SuccessKeepsHistory<V>(sys: System<V>, id: RequestId, value: V)
    requires Enabled(sys, Operate(id, Some(value))) && PhaseInv(sys, id) && HistoryInv(sys)
    ensures HistoryInv(Perform(sys, Operate(id, Some(value))))
  {
    var next := Perform(sys, Operate(id, Some(value)));
    forall composite | composite in sys.records ensures Executed(next, composite, next.records[composite]) {
      assert Executed(sys, composite, sys.records[composite]);
      var i :| 0 <= i < |sys.executions| && Matches(sys.executions[i], composite, sys.records[composite]);
      assert Matches(next.executions[i], composite, next.records[composite]);
    }
    forall e | e in next.executions ensures Accounted(next, e) {
      if e in sys.executions {
        assert Accounted(sys, e);
      }
    }
  }

  lemma StoreKeepsInv<V>(sys: System<V>, id: RequestId)
    requires Inv(sys) && Enabled(sys, Store(id))
    ensures Inv(Perform(sys, Store(id)))
  {
    var next := Perform(sys, Store(id));
    MoveKeepsLocks(sys, next, id, next.progress[id].phase);
    StoreKeepsPhases(sys, id);
    StoreKeepsHistory(sys, id);
  }

  lemma StoreKeepsPhases<V>(sys: System<V>, id: RequestId)
    requires Inv(sys) && Enabled(sys, Store(id))
    ensures PhasesInv(Perform(sys, Store(id)))
  {
    var next := Perform(sys, Store(id));
    assert PhaseInv(sys, id);
    forall other | other in next.progress && other != id ensures PhaseInv(next, other) {
      assert PhaseInv(sys, other);
    }
  }

  lemma StoreKeepsHistory<V>(sys: System<V>, id: RequestId)
    requires Enabled(sys, Store(id)) && PhaseInv(sys, id) && HistoryInv(sys)
    ensures HistoryInv(Perform(sys, Store(id)))
  {
    var next := Perform(sys, Store(id));
    var p := sys.progress[id];
    var mine := Execution(id, p.Key(), p.request.fingerprint, p.phase.value);
    forall composite | composite in next.records ensures Executed(next, composite, next.records[composite]) {
      if composite in sys.records {
        assert Executed(sys, composite, sys.records[composite]);
      } else {
        var i :| 0 <= i < |sys.executions| && sys.executions[i] == mine;
        assert Matches(next.executions[i], composite, next.records[composite]);
      }
    }
    forall e | e in sys.executions ensures Accounted(next, e) {
      assert Accounted(sys, e);
      SameCompositeSameExecution(sys, e, mine);
    }
  }

  lemma SameCompositeSameExecution<V>(sys: System<V>, a: Execution<V>, b: Execution<V>)
    requires ExecutionsDistinct(sys) && a in sys.executions && b in sys.executions
    ensures a.composite == b.composite ==> a == b
  {
    var i :| 0 <= i < |sys.executions| && sys.executions[i] == a;
    var j :| 0 <= j < |sys.executions| && sys.executions[j] == b;
    if i < j {
    } else if j < i {
    }
  }

  lemma LeaveKeepsInv<V>(sys: System<V>, id: RequestId)
    requires Inv(sys) && Enabled(sys, Leave(id))
    ensures Inv(Perform(sys, Leave(id)))
  {
    LeaveKeepsLocks(sys, id);
    assert PhaseInv(sys, id);
    MoveKeepsRest(sys, Perform(sys, Leave(id)), id);
  }

  lemma StepKeepsInv<V>(sys: System<V>, step: Step<V>)
    requires Inv(sys)
    ensures Inv(Perform(sys, step))
  {
    if Enabled(sys, step) {
      match step
      case Arrive(id, request) => ArriveKeepsInv(sys, id, request);
      case Look(id) => LookKeepsInv(sys, id);
      case Operate(id, made) => OperateKeepsInv(sys, id, made);
      case Store(id) => StoreKeepsInv(sys, id);
      case Leave(id) => LeaveKeepsInv(sys, id);
    }
  }

  lemma {:induction false} RunKeepsInv<V>(sys: System<V>, steps: seq<Step<V>>)
    requires Inv(sys)
    ensures Inv(PerformAll(sys, steps))
    ensures Remembers(sys, PerformAll(sys, steps))
    decreases |steps|
  {
    if steps != [] {
      var next := Perform(sys, steps[0]);
      StepKeepsInv(sys, steps[0]);
      StepRemembers(sys, steps[0]);
      RunKeepsInv(next, steps[1..]);
      RemembersTransitive(sys, next, PerformAll(sys, steps));
    }
  }

  lemma StepRemembers<V>(sys: System<V>, step: Step<V>)
    ensures Remembers(sys, Perform(sys, step))
  {
  }

  lemma RemembersTransitive<V>(a: System<V>, b: System<V>, c: System<V>)
    requires Remembers(a, b) && Remembers(b, c)
    ensures Remembers(a, c)
  {
  }

  /** Records and finished requests never change again. */
  ghost predicate Remembers<V>(before: System<V>, after: System<V>) {
    && (forall composite | composite in before.records :: composite in after.records && after.records[composite] == before.records[composite])
    && (forall id | id in before.progress && before.progress[id].phase.Done? :: id in after.progress && after.progress[id] == before.progress[id])
  }

  // ---------- main theorems ----------

  /** In every interleaving at most one operation succeeds for a composite key. */
  lemma ExecutedAtMostOnce<V>(steps: seq<Step<V>>, i: nat, j: nat)
    requires i < j < |PerformAll(Start<V>(), steps).executions|
    ensures PerformAll(Start<V>(), steps).executions[i].composite != PerformAll(Start<V>(), steps).executions[j].composite
  {
    RunKeepsInv(Start<V>(), steps);
  }

  /** A request that returns a value returns what the one execution for its key made for the same
      fingerprint; one refused as reused met a record of another fingerprint. */
  lemma AnswersComeFromTheExecution<V>(steps: seq<Step<V>>, id: RequestId)
    requires var sys := PerformAll(Start<V>(), steps); id in sys.progress && sys.progress[id].phase.Done?
    ensures var sys := PerformAll(Start<V>(), steps);
      var p := sys.progress[id];
      match p.phase.outcome
      case Success(value) => Executed(sys, p.Key(), Record(p.request.fingerprint, value))
      case Failure(KeyReused) => exists record :: Executed(sys, p.Key(), record) && record.fingerprint != p.request.fingerprint
      case Failure(_) => true
  {
    RunKeepsInv(Start<V>(), steps);
    var sys := PerformAll(Start<V>(), steps);
    assert PhaseInv(sys, id);
    var key := sys.progress[id].Key();
    if key in sys.records {
      assert Executed(sys, key, sys.records[key]);
    }
  }

  /** Scopes are derived from a digest, so they all have one length and the composite of scope and
      key is unambiguous. */
  lemma CompositeIsInjective(scope0: string, key0: string, scope1: string, key1: string)
    requires |scope0| == |scope1|
    requires Composite(scope0, key0) == Composite(scope1, key1)
    ensures scope0 == scope1 && key0 == key1
  {
    assert Composite(scope0, key0)[..|scope0|] == scope0 && Composite(scope1, key1)[..|scope1|] == scope1;
    assert Composite(scope0, key0)[|scope0| + 1..] == key0 && Composite(scope1, key1)[|scope1| + 1..] == key1;
  }

  /** Two requests that both return a value for one scope and key sent the same fingerprint and get
      the same value, whatever runs in between. */
  lemma SameAnswer<V>(steps: seq<Step<V>>, later: seq<Step<V>>, a: RequestId, b: RequestId)
    requires var sys := PerformAll(Start<V>(), steps); a in sys.progress && sys.progress[a].phase.Done? && sys.progress[a].phase.outcome.Success?
    requires var sys := PerformAll(PerformAll(Start<V>(), steps), later);
      b in sys.progress && sys.progress[b].phase.Done? && sys.progress[b].phase.outcome.Success?
    requires PerformAll(Start<V>(), steps).progress[a].Key() == PerformAll(PerformAll(Start<V>(), steps), later).progress[b].Key()
    ensures var before, after := PerformAll(Start<V>(), steps).progress[a], PerformAll(PerformAll(Start<V>(), steps), later).progress[b];
      before.request.fingerprint == after.request.fingerprint && before.phase.outcome == after.phase.outcome
  {
    var sys := PerformAll(Start<V>(), steps);
    RunKeepsInv(Start<V>(), steps);
    RunKeepsInv(sys, later);
    assert PhaseInv(sys, a) && PhaseInv(PerformAll(sys, later), b);
  }

  /** While no operation for a key has succeeded there is no record of it, so failures leave no
      trace and the next request to look runs the operation again. */
  lemma FailureLeavesNoRecord<V>(steps: seq<Step<V>>, composite: string)
    requires forall e | e in PerformAll(Start<V>(), steps).executions :: e.composite != composite
    ensures composite !in PerformAll(Start<V>(), steps).records
    ensures forall id | Enabled(PerformAll(Start<V>(), steps), Look(id)) && PerformAll(Start<V>(), steps).progress[id].Key() == composite ::
      Perform(PerformAll(Start<V>(), steps), Look(id)).progress[id].phase.Running?
  {
    RunKeepsInv(Start<V>(), steps);
    var sys := PerformAll(Start<V>(), steps);
    forall c | c in sys.records ensures exists i :: 0 <= i < |sys.executions| && sys.executions[i].composite == c {
      assert Executed(sys, c, sys.records[c]);
    }
  }

  /** A key is locked exactly while one request works on it: every way out frees it. */
  lemma LockedExactlyWhileActive<V>(steps: seq<Step<V>>, composite: string)
    ensures var sys := PerformAll(Start<V>(), steps);
      && (composite in sys.inFlight <==> exists id :: id in sys.progress && sys.progress[id].Active() && sys.progress[id].Key() == composite)
      && (forall a, b | a in sys.progress && b in sys.progress && sys.progress[a].Active() && sys.progress[b].Active() && sys.progress[a].Key() == composite && sys.progress[b].Key() == composite :: a == b)
  {
    RunKeepsInv(Start<V>(), steps);
    var sys := PerformAll(Start<V>(), steps);
    if composite in sys.inFlight {
      assert Held(sys, composite);
    }
  }
}
