/** Who reaches a road event: over whole runs this depends only on the step that created it. */
module RoadEventAccess {
  import opened Wrappers
  import opened RoadEvents
  import opened RoadEventStore
  import opened RoadEventRuns

  /** The store after the first n steps. */
  ghost function StoreAfter(steps: seq<Step>, n: nat): Store
    requires n <= |steps|
  {
    PerformAll(START, steps[..n]).store
  }

  /** The n-th step is the command that created the event. */
  ghost predicate Creates(steps: seq<Step>, n: nat, id: string) {
    && n < |steps| && steps[n].Open? && steps[n].id == id
    && id !in StoreAfter(steps, n).events && id in StoreAfter(steps, n + 1).events
  }

  /** The caller has the tenant and the purpose that the event was created under, and names no reporter or
      the event's own. */
  ghost predicate MayReach(scope: Scope, creation: Scope) {
    && scope.tenantId == creation.tenantId && scope.purpose == creation.purpose
    && (scope.reporter == None || scope.reporter == creation.reporter)
  }

  // ---------- what the creation leaves for good ----------

  lemma OneMore(steps: seq<Step>, n: nat)
    requires n < |steps|
    ensures PerformAll(START, steps[..n + 1]) == Perform(PerformAll(START, steps[..n]), steps[n])
  {
    RunAppend(START, steps[..n], [steps[n]]);
    assert steps[..n + 1] == steps[..n] + [steps[n]];
  }

  lemma UpdateKeepsIds(store: Store, event: RoadEvent, expectedVersion: nat, context: Context)
    ensures Update(store, event, expectedVersion, context).0.events.Keys == store.events.Keys
  {
  }

  lemma NewEventIs(step: Step)
    requires step.Open?
    ensures var made := NewEvent(step.id, step.context.scope.reporter, step.occurredAt, step.latitude, step.longitude, step.severity, step.now);
      made.Success? ==> made.value.id == step.id && made.value.reporter == step.context.scope.reporter
  {
  }

  lemma OnlyOpenAdds(sys: System, step: Step, id: string)
    requires id !in sys.store.events && id in Perform(sys, step).store.events
    ensures step.Open? && step.id == id
  {
    match step
    case Open(_, _, _, _, _, _, _) => NewEventIs(step);
    case Load(_, _, _, _, _, _, _) =>
    case Save(request) =>
      if request in sys.pending {
        var p := sys.pending[request];
        UpdateKeepsIds(sys.store, p.changed, p.base.version, p.context);
      }
    case Abandon(_) =>
  }

  lemma {:induction false} CreationFound(steps: seq<Step>, k: nat, id: string) returns (n: nat)
    requires k <= |steps| && id in StoreAfter(steps, k).events
    ensures n < k && Creates(steps, n, id)
    decreases k
  {
    if k == 0 {
      assert false;
    } else if id in StoreAfter(steps, k - 1).events {
      n := CreationFound(steps, k - 1, id);
    } else {
      n := k - 1;
      OneMore(steps, n);
      OnlyOpenAdds(PerformAll(START, steps[..n]), steps[n], id);
    }
  }

  /** Every event of a reachable store was created by one step of the run. */
  lemma EveryEventWasCreated(steps: seq<Step>, id: string) returns (n: nat)
    requires id in PerformAll(START, steps).store.events
    ensures Creates(steps, n, id)
  {
    assert steps[..|steps|] == steps;
    n := CreationFound(steps, |steps|, id);
  }

  lemma CreateStoresScope(store: Store, event: RoadEvent, context: Context)
    requires event.id !in store.events && event.id in Create(store, event, context).0.events
    ensures var next, scope := Create(store, event, context).0, context.scope;
      event.id in next.scopes && next.scopes[event.id] == Scope(scope.tenantId, scope.purpose, scope.reporter)
  {
  }

  lemma CreatedUnder(sys: System, step: Step)
    requires step.Open? && step.id !in sys.store.events && step.id in Perform(sys, step).store.events
    ensures var store, scope := Perform(sys, step).store, step.context.scope;
      && step.id in store.scopes && store.scopes[step.id] == Scope(scope.tenantId, scope.purpose, scope.reporter)
  {
    NewEventIs(step);
    var made := NewEvent(step.id, step.context.scope.reporter, step.occurredAt, step.latitude, step.longitude, step.severity, step.now);
    CreateStoresScope(sys.store, made.value, step.context.(action := Created));
  }

  /** The run from its n-th step to its k-th. */
  lemma RunFrom(steps: seq<Step>, n: nat, k: nat)
    requires n <= k <= |steps|
    ensures Inv(PerformAll(START, steps[..k]))
    ensures Advances(StoreAfter(steps, n), StoreAfter(steps, k))
  {
    RunKeepsInv(START, steps[..n]);
    RunKeepsInv(PerformAll(START, steps[..n]), steps[n..k]);
    assert steps[..k] == steps[..n] + steps[n..k];
    RunAppend(START, steps[..n], steps[n..k]);
  }

  lemma ScopeOfEvent(store: Store, id: string)
    requires StoreInv(store) && id in store.events
    ensures store.events[id].id == id && id in store.scopes && store.scopes[id].reporter == store.events[id].reporter
  {
    assert EventInv(store, id);
  }

  lemma ScopeStays(steps: seq<Step>, n: nat, k: nat, id: string)
    requires Creates(steps, n, id) && n < k <= |steps|
    ensures var store, creation := StoreAfter(steps, k), steps[n].context.scope;
      && id in store.events && store.events[id].id == id && store.events[id].reporter == creation.reporter
      && id in store.scopes && store.scopes[id] == Scope(creation.tenantId, creation.purpose, creation.reporter)
  {
    OneMore(steps, n);
    CreatedUnder(PerformAll(START, steps[..n]), steps[n]);
    RunFrom(steps, n + 1, k);
    ScopeOfEvent(StoreAfter(steps, k), id);
  }

  // ---------- reading ----------

  /** Whatever has happened since, an event is found by its id, its timeline is shown, and it is listed, given
      the query's filters, exactly when the caller may reach what its creation says. */
  lemma AccessIsByCreation(steps: seq<Step>, n: nat, id: string, scope: Scope, query: Query)
    requires Creates(steps, n, id)
    ensures var store := PerformAll(START, steps).store; forall listed | listed in store.order :: listed in store.events
    ensures var store := PerformAll(START, steps).store;
      var allowed := MayReach(scope, steps[n].context.scope);
      && id in store.events && store.events[id].reporter == steps[n].context.scope.reporter
      && FindById(store, id, scope) == (if allowed then Some(store.events[id]) else None)
      && TimelineFor(store, id, scope) == (if allowed then Timeline(store, id) else [])
      && (forall e: RoadEvent | e.id == id :: e in Listing(store, query, scope) <==> allowed && e == store.events[id] && AskedFor(e, query))
  {
    assert steps[..|steps|] == steps;
    ScopeStays(steps, n, |steps|, id);
    ListingIsExact(steps, query, scope);
  }

  /** A command loads the event exactly when, besides, it names the current version and the event allows the change. */
  lemma LoadingIsByCreation(steps: seq<Step>, n: nat, id: string, load: Step)
    requires Creates(steps, n, id) && load.Load? && load.eventId == id
    ensures var store := PerformAll(START, steps).store;
      var loaded := Loaded(store, id, load.expectedVersion, load.mutation, load.now, load.scope, load.actorId);
      && id in store.events
      && (loaded.Some? <==> MayReach(load.scope, steps[n].context.scope) && store.events[id].version == load.expectedVersion
                            && Mutate(store.events[id], load.mutation, load.now).Success?)
      && (loaded.Some? ==> loaded.value.base == store.events[id])
  {
    assert steps[..|steps|] == steps;
    ScopeStays(steps, n, |steps|, id);
  }

  // ---------- changing ----------

  /** The m-th step is the load that this pending command comes from. */
  ghost predicate LoadedBy(steps: seq<Step>, m: nat, request: RequestId, p: Pending) {
    && m < |steps| && steps[m].Load? && steps[m].request == request
    && steps[m].eventId == p.base.id && steps[m].mutation == p.mutation && steps[m].expectedVersion == p.base.version
    && p.context == Context(steps[m].scope, steps[m].actorId, ActionOf(p.mutation))
    && Mutate(p.base, p.mutation, steps[m].now) == Success(p.changed)
  }

  lemma LoadedComesFrom(store: Store, step: Step)
    requires step.Load? && StoreInv(store)
    requires Loaded(store, step.eventId, step.expectedVersion, step.mutation, step.now, step.scope, step.actorId).Some?
    ensures LoadedBy([step], 0, step.request, Loaded(store, step.eventId, step.expectedVersion, step.mutation, step.now, step.scope, step.actorId).value)
  {
    ScopeOfEvent(store, step.eventId);
  }

  lemma OnlyLoadsAdd(sys: System, step: Step, request: RequestId)
    requires request in Perform(sys, step).pending
    ensures if request in sys.pending then Perform(sys, step).pending[request] == sys.pending[request]
      else
        && step.Load? && step.request == request
        && Loaded(sys.store, step.eventId, step.expectedVersion, step.mutation, step.now, step.scope, step.actorId)
           == Some(Perform(sys, step).pending[request])
  {
    match step
    case Open(_, _, _, _, _, _, _) =>
    case Load(_, _, _, _, _, _, _) =>
    case Save(_) =>
    case Abandon(_) =>
  }

  lemma {:induction false} PendingWasLoaded(steps: seq<Step>, k: nat, request: RequestId) returns (m: nat)
    requires k <= |steps| && request in PerformAll(START, steps[..k]).pending
    ensures m < k && LoadedBy(steps, m, request, PerformAll(START, steps[..k]).pending[request])
    decreases k
  {
    if k == 0 {
      assert false;
    } else {
      var sys := PerformAll(START, steps[..k - 1]);
      OneMore(steps, k - 1);
      OnlyLoadsAdd(sys, steps[k - 1], request);
      if request in sys.pending {
        m := PendingWasLoaded(steps, k - 1, request);
      } else {
        m := k - 1;
        RunKeepsInv(START, steps[..m]);
        LoadedComesFrom(sys.store, steps[m]);
      }
    }
  }

  lemma CreateChangesNone(store: Store, event: RoadEvent, context: Context, id: string)
    requires id in store.events
    ensures id in Create(store, event, context).0.events && Create(store, event, context).0.events[id] == store.events[id]
  {
  }

  /** What a save that changes an event has done. */
  lemma SaveChanges(store: Store, p: Pending, id: string)
    requires PendingInv(store, p) && id in store.events
    requires Update(store, p.changed, p.base.version, p.context).0.events[id] != store.events[id]
    ensures var next := Update(store, p.changed, p.base.version, p.context).0;
      && p.base == store.events[id] && p.base.id == id && p.changed == next.events[id] && Visible(store, id, p.context.scope)
      && Timeline(next, id) == Timeline(store, id) +
           [AuditEntry(p.context.action, p.context.actorId, Some(SnapshotOf(p.base)), SnapshotOf(p.changed))]
  {
  }

  /** A step that changes a stored event is a save of a command that had loaded this very event in scope. */
  lemma OnlySavesChange(sys: System, step: Step, id: string)
    requires Inv(sys) && id in sys.store.events && id in Perform(sys, step).store.events
    requires Perform(sys, step).store.events[id] != sys.store.events[id]
    ensures step.Save? && step.request in sys.pending
    ensures var p := sys.pending[step.request];
      && p.base == sys.store.events[id] && p.base.id == id && p.changed == Perform(sys, step).store.events[id]
      && Visible(sys.store, id, p.context.scope)
      && Timeline(Perform(sys, step).store, id) == Timeline(sys.store, id) +
           [AuditEntry(p.context.action, p.context.actorId, Some(SnapshotOf(p.base)), SnapshotOf(p.changed))]
  {
    match step
    case Open(_, _, _, _, _, _, context) =>
      var made := NewEvent(step.id, context.scope.reporter, step.occurredAt, step.latitude, step.longitude, step.severity, step.now);
      if made.Success? {
        CreateChangesNone(sys.store, made.value, context.(action := Created), id);
      }
    case Load(_, _, _, _, _, _, _) =>
    case Save(request) =>
      if request in sys.pending {
        SaveChanges(sys.store, sys.pending[request], id);
      }
    case Abandon(_) =>
  }

  /** Whenever an event changes, this is the save of a command that was loaded before by a caller who may reach
      what the event's creation says: the event becomes what that command makes of it, and its timeline names
      that caller's actor. */
  lemma ChangesComeFromOwners(steps: seq<Step>, n: nat, k: nat, id: string) returns (m: nat)
    requires Creates(steps, n, id) && n < k < |steps| && id in StoreAfter(steps, k).events && id in StoreAfter(steps, k + 1).events
    requires StoreAfter(steps, k + 1).events[id] != StoreAfter(steps, k).events[id]
    ensures m < k && steps[m].Load? && steps[k] == Save(steps[m].request) && steps[m].eventId == id
    ensures MayReach(steps[m].scope, steps[n].context.scope)
    ensures var before, after := StoreAfter(steps, k), StoreAfter(steps, k + 1);
      && before.events[id].version == steps[m].expectedVersion
      && Mutate(before.events[id], steps[m].mutation, steps[m].now) == Success(after.events[id])
      && Timeline(after, id) == Timeline(before, id) +
           [AuditEntry(ActionOf(steps[m].mutation), steps[m].actorId, Some(SnapshotOf(before.events[id])), SnapshotOf(after.events[id]))]
  {
    var sys := PerformAll(START, steps[..k]);
    RunKeepsInv(START, steps[..k]);
    OneMore(steps, k);
    OnlySavesChange(sys, steps[k], id);
    ScopeStays(steps, n, k, id);
    m := PendingWasLoaded(steps, k, steps[k].request);
  }

  // ---------- what is created, and what a change makes of it ----------

  /** The values that an assessment may take; a high one demands that people look at it. */
  ghost predicate Acceptable(a: Assessment) {
    && 0.0 <= a.score <= 100.0 && 0.0 <= a.confidence <= 1.0
    && |a.reasonCodes| > 0 && (forall code | code in a.reasonCodes :: 1 <= |code| <= 64)
    && (a.level in {High, Critical} ==> a.requiresHumanReview)
  }

  ghost predicate MayOpen(store: Store, step: Step)
    requires step.Open?
  {
    MayBeMade(step) && step.id !in store.events
    && (step.context.scope.reporter.Some? ==> step.context.actorId == step.context.scope.reporter)
  }

  /** The values of a new event are acceptable. */
  ghost predicate MayBeMade(step: Step)
    requires step.Open?
  {
    && 1 <= |step.id| <= 128 && (step.context.scope.reporter.Some? ==> 1 <= |step.context.scope.reporter.value| <= 128)
    && step.occurredAt <= step.now + 300_000 && -90.0 <= step.latitude <= 90.0 && -180.0 <= step.longitude <= 180.0
    && Acceptable(step.severity)
  }

  ghost function MadeBy(step: Step): RoadEvent
    requires step.Open?
  {
    RoadEvent(step.id, step.context.scope.reporter, step.occurredAt, step.latitude, step.longitude, Detected, step.severity, 1, None)
  }

  lemma MadeExactlyWhen(step: Step)
    requires step.Open?
    ensures var made := NewEvent(step.id, step.context.scope.reporter, step.occurredAt, step.latitude, step.longitude, step.severity, step.now);
      (made.Success? <==> MayBeMade(step)) && (made.Success? ==> made.value == MadeBy(step))
  {
    assert ValidAssessment(step.severity) <==> Acceptable(step.severity);
  }

  lemma StoredExactlyWhen(store: Store, event: RoadEvent, context: Context)
    requires KeysInv(store) && event.reporter == context.scope.reporter
    ensures var next := Create(store, event, context).0;
      if event.id !in store.events && (context.scope.reporter.Some? ==> context.actorId == context.scope.reporter) then
        next.events == store.events[event.id := event]
        && Timeline(next, event.id) == [AuditEntry(context.action, context.actorId, None, SnapshotOf(event))]
      else next == store
  {
    if event.id !in store.events {
      assert Timeline(store, event.id) == [];
    }
  }

  /** An event is created exactly when its id is new, its values are acceptable, and a reporter, if one is named,
      is the actor himself.  It begins as detected, in version 1, without an authorized closure, and its timeline
      with one entry; no other event is touched. */
  lemma OpensExactlyWhen(sys: System, step: Step)
    requires Inv(sys) && step.Open?
    ensures var store, next := sys.store, Perform(sys, step).store;
      && next.events == (if MayOpen(store, step) then store.events[step.id := MadeBy(step)] else store.events)
      && (MayOpen(store, step) ==>
            Timeline(next, step.id) == [AuditEntry(Created, step.context.actorId, None, SnapshotOf(MadeBy(step)))])
  {
    MadeExactlyWhen(step);
    if MayBeMade(step) {
      StoredExactlyWhen(sys.store, MadeBy(step), step.context.(action := Created));
    }
  }

  /** A status changes along a permitted transition, to closed for a high severity only once a closure is
      authorized.  A reassessment takes an acceptable severity and revokes the closure.  A closure can be
      authorized where closing is permitted, by a named person with a reason.  Nothing else of the event changes. */
  lemma ChangeExactlyWhen(event: RoadEvent, mutation: Mutation, now: int)
    ensures var r := Mutate(event, mutation, now);
      match mutation
      case TransitionTo(next) =>
        && (r.Success? <==> (event.status, next) in PERMITTED && (next == Closed && event.severity.level in {High, Critical} ==> event.closure.Some?))
        && (r.Success? ==> r.value == event.(status := next, version := event.version + 1))
      case AssessSeverity(assessment) =>
        && (r.Success? <==> Acceptable(assessment))
        && (r.Success? ==> r.value == event.(severity := assessment, closure := None, version := event.version + 1))
      case AuthorizeClosure(closure) =>
        && (r.Success? <==> event.status in {Recovery, TransferredToAuthority} && 1 <= |closure.actorId| <= 128
                            && 1 <= |closure.reason| <= 500 && closure.authorizedAt <= now + 300_000)
        && (r.Success? ==> r.value == event.(closure := Some(closure), version := event.version + 1))
  {
    if mutation.AssessSeverity? {
      assert ValidAssessment(mutation.assessment) <==> Acceptable(mutation.assessment);
    }
  }
}
