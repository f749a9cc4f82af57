/** The version-checked commands of RoadEventApplicationService: load an event, change it, and store it
    if nobody else did in between. */
module RoadEventService {
  import opened Wrappers
  import opened RoadEvents
  import opened RoadEventStore
  import opened RoadEventRepository
  import opened RoadEventRuns

  datatype CommandError = EventNotFound | VersionIsStale | Refused(reason: EventError)

  predicate ActsFor(step: Step, request: RequestId) {
    (step.Load? || step.Save? || step.Abandon?) && step.request == request
  }

  /** Whatever the others did, the store is as they left it: the request took no step that changed it. */
  ghost predicate LeftNoTrace(start: System, steps: seq<Step>, request: RequestId) {
    forall n | 0 <= n < |steps| && ActsFor(steps[n], request) ::
      PerformAll(start, steps[..n + 1]).store == PerformAll(start, steps[..n]).store
  }

  class RoadEventApplicationService {
    const repository: MemoryRoadEventRepository
    ghost var pending: map<RequestId, Pending>

    constructor (repository: MemoryRoadEventRepository)
      ensures this.repository == repository && pending == map[]
    {
      this.repository := repository;
      pending := map[];
    }

    ghost function Value(): System
      reads this, repository
    {
      System(repository.Value(), pending)
    }

    /** What other requests do while this one awaits.  Callers may rely only on the contract. */
    method OthersAct(ghost request: RequestId) returns (ghost steps: seq<Step>)
      modifies this, repository
      ensures Value() == PerformAll(old(Value()), steps)
      ensures forall i | 0 <= i < |steps| :: !ActsFor(steps[i], request)
    {
      steps := [];
    }

    /** reassessSeverity, transition and authorizeClosure.  Others may act between the load and the
        save; a save that succeeds leaves exactly the returned event stored. */
    method Change(ghost request: RequestId, eventId: string, expectedVersion: nat, mutation: Mutation, now: int, scope: Scope, actorId: Option<string>)
        returns (r: Result<RoadEvent, CommandError>, ghost steps: seq<Step>)
      requires request !in pending
      modifies this, repository
      ensures Value() == PerformAll(old(Value()), steps) && request !in pending
      ensures r.Success? ==> r.value.id in repository.events && repository.events[r.value.id] == r.value
      ensures r.Failure? && r.error.Refused? ==> Value() == old(Value())
      ensures r.Failure? ==> LeftNoTrace(old(Value()), steps, request)
    {
      ghost var start := Value();
      var found := repository.FindById(eventId, scope);
      if found.None? {
        return Failure(EventNotFound), [];
      }
      var base := found.value;
      if base.version != expectedVersion {
        return Failure(VersionIsStale), [];
      }
      var changed := Mutate(base, mutation, now);
      if changed.Failure? {
        return Failure(Refused(changed.error)), [];
      }
      var context := Context(scope, actorId, ActionOf(mutation));
      pending := pending[request := Pending(base, changed.value, mutation, context)];
      ghost var load := Load(request, eventId, expectedVersion, mutation, now, scope, actorId);
      steps := Extend(start, [], load);
      assert steps == [load];
      ghost var others := OthersAct(request);
      OthersLeaveRequestAlone(PerformAll(start, steps), others, request);
      RunAppend(start, steps, others);
      steps := steps + others;
      var saved := repository.Update(changed.value, expectedVersion, context);
      pending := pending - {request};
      steps := Extend(start, steps, Save(request));
      if saved.Failure? {
        FailedChange(start, load, others, request);
        return Failure(if saved.error == NotFound then EventNotFound else VersionIsStale), steps;
      }
      return Success(changed.value), steps;
    }
  }

  /** A load changes no store, and neither does a save that fails. */
  lemma FailedChange(start: System, load: Step, others: seq<Step>, request: RequestId)
    requires load.Load? && forall i | 0 <= i < |others| :: !ActsFor(others[i], request)
    requires PerformAll(start, [load] + others + [Save(request)]).store == PerformAll(start, [load] + others).store
    ensures LeftNoTrace(start, [load] + others + [Save(request)], request)
  {
    var steps := [load] + others + [Save(request)];
    OthersInBetween(load, others, Save(request), request);
    forall n | 0 <= n < |steps| && ActsFor(steps[n], request) ensures PerformAll(start, steps[..n + 1]).store == PerformAll(start, steps[..n]).store {
      if n == 0 {
        assert steps[..1] == [] + [load];
        RunAppend(start, [], [load]);
        assert steps[..0] == [];
      } else {
        assert steps[..n] == [load] + others && steps[..n + 1] == steps;
      }
    }
  }

  lemma OthersInBetween(first: Step, others: seq<Step>, last: Step, request: RequestId)
    requires forall i | 0 <= i < |others| :: !ActsFor(others[i], request)
    ensures forall n | 0 < n <= |others| :: !ActsFor(([first] + others + [last])[n], request)
  {
    forall n | 0 < n <= |others| ensures !ActsFor(([first] + others + [last])[n], request) {
      assert ([first] + others + [last])[n] == others[n - 1];
    }
  }

  ghost function Extend(start: System, steps: seq<Step>, step: Step): (extended: seq<Step>)
    ensures extended == steps + [step]
    ensures PerformAll(start, extended) == Perform(PerformAll(start, steps), step)
  {
    RunAppend(start, steps, [step]);
    steps + [step]
  }

  lemma OtherStepLeavesRequest(sys: System, step: Step, request: RequestId)
    requires request in sys.pending && !ActsFor(step, request)
    ensures request in Perform(sys, step).pending && Perform(sys, step).pending[request] == sys.pending[request]
  {
  }

  lemma {:induction false} OthersLeaveRequestAlone(sys: System, steps: seq<Step>, request: RequestId)
    requires request in sys.pending && forall i | 0 <= i < |steps| :: !ActsFor(steps[i], request)
    ensures request in PerformAll(sys, steps).pending && PerformAll(sys, steps).pending[request] == sys.pending[request]
    decreases |steps|
  {
    if steps != [] {
      OtherStepLeavesRequest(sys, steps[0], request);
      OthersLeaveRequestAlone(Perform(sys, steps[0]), steps[1..], request);
    }
  }
}
