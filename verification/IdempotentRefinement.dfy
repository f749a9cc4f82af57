/** Interleaved idempotent requests look like requests served one at a time: an atomic service that
    runs an operation once per key, and to which every run of the interleaved system is equivalent. */
module IdempotentRefinement {
  import opened Wrappers
  import opened IdempotentExecution

  /** One request served atomically; `made` is what its operation would make, were it to run. */
  datatype Submission<V> = Submission(id: RequestId, request: Request, made: Option<V>)

  datatype Service<V> = Service(records: map<string, Record<V>>, answers: map<RequestId, Result<V, RequestError>>)

  function Submit<V>(service: Service<V>, s: Submission<V>): Service<V> {
    var composite := Composite(s.request.scope, s.request.key);
    if composite in service.records then
      var record := service.records[composite];
      service.(answers := service.answers[s.id := if record.fingerprint == s.request.fingerprint then Success(record.value) else Failure(KeyReused)])
    else match s.made
      case None => service.(answers := service.answers[s.id := Failure(OperationFailed)])
      case Some(value) => Service(service.records[composite := Record(s.request.fingerprint, value)], service.answers[s.id := Success(value)])
  }

  function SubmitAll<V>(service: Service<V>, submissions: seq<Submission<V>>): Service<V>
    decreases |submissions|
  {
    if submissions == [] then service else SubmitAll(Submit(service, submissions[0]), submissions[1..])
  }

  /** The point within a step at which a request takes effect: when it finds a record, or when its
      operation ends. */
  function SubmissionOf<V>(sys: System<V>, step: Step<V>): seq<Submission<V>> {
    if !Enabled(sys, step) then []
    else match step
      case Look(id) => if sys.progress[id].Key() in sys.records then [Submission(id, sys.progress[id].request, None)] else []
      case Operate(id, made) => [Submission(id, sys.progress[id].request, made)]
      case _ => []
  }

  function Submissions<V>(sys: System<V>, steps: seq<Step<V>>): seq<Submission<V>>
    decreases |steps|
  {
    if steps == [] then [] else SubmissionOf(sys, steps[0]) + Submissions(Perform(sys, steps[0]), steps[1..])
  }

  /** What a request's phase says it has been, or will be, answered.  Requests turned away because an
      equal one is in flight have no effect and are not submitted. */
  function AnswerOf<V>(phase: Phase<V>): Option<Result<V, RequestError>> {
    match phase
    case Produced(value) => Some(Success(value))
    case Leaving(result) => Some(result)
    case Done(Failure(InFlight)) => None
    case Done(result) => Some(result)
    case _ => None
  }

  function AnswerIn<V>(service: Service<V>, id: RequestId): Option<Result<V, RequestError>> {
    if id in service.answers then Some(service.answers[id]) else None
  }

  function AnswerTo<V>(sys: System<V>, id: RequestId): Option<Result<V, RequestError>> {
    if id in sys.progress then AnswerOf(sys.progress[id].phase) else None
  }

  ghost predicate SameAnswers<V>(sys: System<V>, service: Service<V>) {
    forall id :: AnswerIn(service, id) == AnswerTo(sys, id)
  }

  /** The service has recorded exactly the executions that succeeded. */
  ghost predicate SameRecords<V>(sys: System<V>, service: Service<V>) {
    && (forall e | e in sys.executions :: e.composite in service.records && service.records[e.composite] == Record(e.fingerprint, e.value))
    && (forall composite | composite in service.records :: exists e :: e in sys.executions && e.composite == composite)
  }

  /** A leaving request is never one that was turned away. */
  ghost predicate LeavingWasServed<V>(sys: System<V>) {
    forall id | id in sys.progress && sys.progress[id].phase.Leaving? :: sys.progress[id].phase.result != Failure(InFlight)
  }

  ghost predicate Refines<V>(sys: System<V>, service: Service<V>) {
    SameAnswers(sys, service) && SameRecords(sys, service) && LeavingWasServed(sys)
  }

  lemma RecordsAgree<V>(sys: System<V>, service: Service<V>, composite: string)
    requires Inv(sys) && SameRecords(sys, service) && composite in sys.records
    ensures composite in service.records && service.records[composite] == sys.records[composite]
  {
    assert Executed(sys, composite, sys.records[composite]);
    var i :| 0 <= i < |sys.executions| && Matches(sys.executions[i], composite, sys.records[composite]);
    assert sys.executions[i] in sys.executions;
  }

  lemma AnswerMoves<V>(sys: System<V>, next: System<V>, service: Service<V>, served: Service<V>, id: RequestId, answer: Result<V, RequestError>)
    requires SameAnswers(sys, service)
    requires id in next.progress && next.progress == sys.progress[id := next.progress[id]]
    requires served.answers == service.answers[id := answer] && AnswerOf(next.progress[id].phase) == Some(answer)
    ensures SameAnswers(next, served)
  {
    forall other ensures AnswerIn(served, other) == AnswerTo(next, other) {
      assert AnswerIn(service, other) == AnswerTo(sys, other);
    }
  }

  lemma AnswersStay<V>(sys: System<V>, next: System<V>, service: Service<V>, id: RequestId)
    requires SameAnswers(sys, service)
    requires id in next.progress && next.progress == sys.progress[id := next.progress[id]]
    requires AnswerTo(next, id) == AnswerTo(sys, id)
    ensures SameAnswers(next, service)
  {
    forall other ensures AnswerIn(service, other) == AnswerTo(next, other) {
      assert AnswerIn(service, other) == AnswerTo(sys, other);
    }
  }

  lemma FindingRefines<V>(sys: System<V>, service: Service<V>, id: RequestId)
    requires Refines(sys, service) && Enabled(sys, Look(id)) && sys.progress[id].Key() in sys.records && sys.progress[id].Key() in service.records
    requires service.records[sys.progress[id].Key()] == sys.records[sys.progress[id].Key()]
    ensures Refines(Perform(sys, Look(id)), Submit(service, Submission(id, sys.progress[id].request, None)))
  {
    var served := Submit(service, Submission(id, sys.progress[id].request, None));
    AnswerMoves(sys, Perform(sys, Look(id)), service, served, id, served.answers[id]);
  }

  lemma LookRefines<V>(sys: System<V>, service: Service<V>, id: RequestId)
    requires Inv(sys) && Refines(sys, service) && Enabled(sys, Look(id))
    ensures Refines(Perform(sys, Look(id)), SubmitAll(service, SubmissionOf(sys, Look(id))))
  {
    if sys.progress[id].Key() in sys.records {
      var submission := Submission(id, sys.progress[id].request, None);
      assert SubmitAll(service, [submission]) == Submit(service, submission);
      RecordsAgree(sys, service, sys.progress[id].Key());
      FindingRefines(sys, service, id);
    } else {
      AnswersStay(sys, Perform(sys, Look(id)), service, id);
    }
  }

  lemma OperateRefines<V>(sys: System<V>, service: Service<V>, id: RequestId, made: Option<V>)
    requires Inv(sys) && Refines(sys, service) && Enabled(sys, Operate(id, made))
    ensures Refines(Perform(sys, Operate(id, made)), Submit(service, Submission(id, sys.progress[id].request, made)))
  {
    var next, served := Perform(sys, Operate(id, made)), Submit(service, Submission(id, sys.progress[id].request, made));
    assert PhaseInv(sys, id);
    AnswerMoves(sys, next, service, served, id, if made.None? then Failure(OperationFailed) else Success(made.value));
    if made.Some? {
      ExecutionIsRecorded(sys, service, id, made.value);
    }
  }

  lemma ExecutionIsRecorded<V>(sys: System<V>, service: Service<V>, id: RequestId, value: V)
    requires SameRecords(sys, service) && Enabled(sys, Operate(id, Some(value))) && PhaseInv(sys, id)
    ensures SameRecords(Perform(sys, Operate(id, Some(value))), Submit(service, Submission(id, sys.progress[id].request, Some(value))))
  {
    var next, served := Perform(sys, Operate(id, Some(value))), Submit(service, Submission(id, sys.progress[id].request, Some(value)));
    var p := sys.progress[id];
    var mine := Execution(id, p.Key(), p.request.fingerprint, value);
    assert mine in next.executions;
    forall composite | composite in served.records ensures exists e :: e in next.executions && e.composite == composite {
      if composite == p.Key() {
        assert mine in next.executions;
      } else {
        var e :| e in sys.executions && e.composite == composite;
        assert e in next.executions;
      }
    }
  }

  /** Arriving, storing and leaving change no answer. */
  lemma QuietStepRefines<V>(sys: System<V>, service: Service<V>, step: Step<V>)
    requires Refines(sys, service) && Enabled(sys, step) && !step.Look? && !step.Operate?
    ensures Refines(Perform(sys, step), service)
  {
    AnswersStay(sys, Perform(sys, step), service, step.id);
  }

  lemma StepRefines<V>(sys: System<V>, service: Service<V>, step: Step<V>)
    requires Inv(sys) && Refines(sys, service)
    ensures Refines(Perform(sys, step), SubmitAll(service, SubmissionOf(sys, step)))
  {
    if Enabled(sys, step) {
      match step
      case Look(id) => LookRefines(sys, service, id);
      case Operate(id, made) =>
        OperateRefines(sys, service, id, made);
        assert SubmitAll(service, SubmissionOf(sys, step)) == Submit(service, Submission(id, sys.progress[id].request, made));
      case _ => QuietStepRefines(sys, service, step);
    }
  }

  lemma {:induction false} SubmitAllAppend<V>(service: Service<V>, first: seq<Submission<V>>, rest: seq<Submission<V>>)
    ensures SubmitAll(service, first + rest) == SubmitAll(SubmitAll(service, first), rest)
    decreases |first|
  {
    if first == [] {
      assert first + rest == rest;
    } else {
      assert (first + rest)[1..] == first[1..] + rest;
      SubmitAllAppend(Submit(service, first[0]), first[1..], rest);
    }
  }

  lemma {:induction false} RunRefines<V>(sys: System<V>, service: Service<V>, steps: seq<Step<V>>)
    requires Inv(sys) && Refines(sys, service)
    ensures Refines(PerformAll(sys, steps), SubmitAll(service, Submissions(sys, steps)))
    decreases |steps|
  {
    if steps != [] {
      var next := Perform(sys, steps[0]);
      StepKeepsInv(sys, steps[0]);
      StepRefines(sys, service, steps[0]);
      RunRefines(next, SubmitAll(service, SubmissionOf(sys, steps[0])), steps[1..]);
      SubmitAllAppend(service, SubmissionOf(sys, steps[0]), Submissions(next, steps[1..]));
    }
  }

  /** Every run of interleaved requests gives each finished request that was not turned away the
      answer of the atomic service, fed the same requests one after another in some order. */
  lemma InterleavingsAreAtomic<V>(steps: seq<Step<V>>, id: RequestId)
    requires var sys := PerformAll(Start<V>(), steps); id in sys.progress && sys.progress[id].phase.Done?
    ensures var outcome := PerformAll(Start<V>(), steps).progress[id].phase.outcome;
      var service := SubmitAll(Service(map[], map[]), Submissions(Start<V>(), steps));
      outcome != Failure(InFlight) ==> id in service.answers && service.answers[id] == outcome
  {
    RunRefines(Start<V>(), Service(map[], map[]), steps);
    var service := SubmitAll(Service(map[], map[]), Submissions(Start<V>(), steps));
    assert AnswerIn(service, id) == AnswerTo(PerformAll(Start<V>(), steps), id);
  }
}
