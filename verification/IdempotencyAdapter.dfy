/** MemoryIdempotencyAdapter and executeIdempotently as objects.  At every await other requests may
    take any number of steps; the method is proved to be one request of the interleaved system. */
module IdempotencyAdapter {
  import opened Wrappers
  import opened IdempotentExecution

  class MemoryIdempotencyAdapter<V> {
    var records: map<string, Record<V>>
    var inFlight: set<string>
    ghost var progress: map<RequestId, Progress<V>>
    ghost var executions: seq<Execution<V>>

    constructor ()
      ensures State() == Start()
    {
      records, inFlight, progress, executions := map[], {}, map[], [];
    }

    ghost function State(): System<V>
      reads this
    {
      System(records, inFlight, progress, executions)
    }

    /** The synchronous head of executeExclusively. */
    method Enter(ghost id: RequestId, request: Request) returns (entered: bool)
      requires id !in progress
      modifies this
      ensures State() == Perform(old(State()), Arrive(id, request))
      ensures entered == (Composite(request.scope, request.key) !in old(inFlight))
    {
      var composite := Composite(request.scope, request.key);
      entered := composite !in inFlight;
      progress := progress[id := Progress(request, if entered then Entered else Done(Failure(InFlight)))];
      if entered {
        inFlight := inFlight + {composite};
      }
    }

    /** The finally block of executeExclusively. */
    method Exit(ghost id: RequestId, request: Request, ghost result: Result<V, RequestError>)
      requires id in progress && progress[id] == Progress(request, Leaving(result))
      modifies this
      ensures State() == Perform(old(State()), Leave(id))
    {
      inFlight := inFlight - {Composite(request.scope, request.key)};
      progress := progress[id := Progress(request, Done(result))];
    }

    method Get(scope: string, key: string) returns (r: Option<Record<V>>)
      ensures r == Lookup(records, Composite(scope, key))
    {
      var composite := Composite(scope, key);
      return if composite in records then Some(records[composite]) else None;
    }

    method Put(scope: string, key: string, record: Record<V>)
      modifies this`records
      ensures records == PutOnce(old(records), Composite(scope, key), record)
    {
      var composite := Composite(scope, key);
      if composite !in records {
        records := records[composite := record];
      }
    }

    /** What other requests do while this one awaits.  Callers may rely only on the contract. */
    method OthersAct(ghost id: RequestId) returns (ghost steps: seq<Step<V>>)
      modifies this
      ensures State() == PerformAll(old(State()), steps)
      ensures forall i | 0 <= i < |steps| :: steps[i].id != id
    {
      steps := [];
    }

    /** Await: others act, and this request stays where it is. */
    method Await(ghost id: RequestId, ghost start: System<V>, ghost steps: seq<Step<V>>) returns (ghost steps': seq<Step<V>>)
      requires State() == PerformAll(start, steps) && id in progress
      modifies this
      ensures State() == PerformAll(start, steps') && id in progress && progress[id] == old(progress[id])
    {
      ghost var others := OthersAct(id);
      steps' := steps + others;
      PerformAppend(start, steps, others);
      OthersLeaveRequestAlone(PerformAll(start, steps), others, id);
    }

    /** The operation and the put after it; `operation` is what it turns out to make, None when it
        throws. */
    method RunOperation(ghost id: RequestId, request: Request, operation: Option<V>, ghost start: System<V>, ghost before: seq<Step<V>>)
        returns (r: Result<V, RequestError>, ghost steps: seq<Step<V>>)
      requires State() == PerformAll(start, before)
      requires id in progress && progress[id] == Progress(request, Running)
      modifies this
      ensures State() == PerformAll(start, steps)
      ensures id in progress && progress[id] == Progress(request, Leaving(r))
    {
      if operation.None? {
        r := Failure(OperationFailed);
        progress := progress[id := Progress(request, Leaving(r))];
        steps := Extend(start, before, Operate(id, operation));
        return;
      }
      r := Success(operation.value);
      executions := executions + [Execution(id, progress[id].Key(), request.fingerprint, operation.value)];
      progress := progress[id := Progress(request, Produced(operation.value))];
      steps := Extend(start, before, Operate(id, operation));
      steps := Await(id, start, steps);
      Put(request.scope, request.key, Record(request.fingerprint, operation.value));
      progress := progress[id := Progress(request, Leaving(r))];
      steps := Extend(start, steps, Store(id));
    }

    method ExecuteIdempotently(ghost id: RequestId, request: Request, operation: Option<V>)
        returns (r: Result<V, RequestError>, ghost steps: seq<Step<V>>)
      requires id !in progress
      modifies this
      ensures State() == PerformAll(old(State()), steps)
      ensures id in progress && progress[id] == Progress(request, Done(r))
    {
      ghost var start := State();
      steps := [];
      var entered := Enter(id, request);
      steps := Extend(start, steps, Arrive(id, request));
      if !entered {
        return Failure(InFlight), steps;
      }
      steps := Await(id, start, steps);
      var existing := Get(request.scope, request.key);
      progress := progress[id := Progress(request, AfterLook(existing, request.fingerprint))];
      steps := Extend(start, steps, Look(id));
      if existing.Some? {
        r := if existing.value.fingerprint != request.fingerprint then Failure(KeyReused) else Success(existing.value.value);
      } else {
        steps := Await(id, start, steps);
        r, steps := RunOperation(id, request, operation, start, steps);
      }
      steps := Await(id, start, steps);
      Exit(id, request, r);
      steps := Extend(start, steps, Leave(id));
    }
  }

  ghost function Extend<V>(start: System<V>, steps: seq<Step<V>>, step: Step<V>): (extended: seq<Step<V>>)
    ensures PerformAll(start, extended) == Perform(PerformAll(start, steps), step)
  {
    PerformAppend(start, steps, [step]);
    steps + [step]
  }

  lemma {:induction false} OthersLeaveRequestAlone<V>(sys: System<V>, steps: seq<Step<V>>, id: RequestId)
    requires id in sys.progress && forall i | 0 <= i < |steps| :: steps[i].id != id
    ensures id in PerformAll(sys, steps).progress && PerformAll(sys, steps).progress[id] == sys.progress[id]
    decreases |steps|
  {
    if steps != [] {
      assert Perform(sys, steps[0]).progress[id] == sys.progress[id];
      OthersLeaveRequestAlone(Perform(sys, steps[0]), steps[1..], id);
    }
  }
}
