/** Road event commands that load, change and store events while others do the same. */
module RoadEventRuns {
  import opened Wrappers
  import opened RoadEvents
  import opened RoadEventStore
  import opened StableSort

  type RequestId = nat

  /** A command between its findById and its update: the event it loaded and what it makes of it. */
  datatype Pending = Pending(base: RoadEvent, changed: RoadEvent, mutation: Mutation, context: Context)

  datatype System = System(store: Store, pending: map<RequestId, Pending>)

  datatype Step =
    | Open(id: string, occurredAt: int, latitude: real, longitude: real, severity: Assessment, now: int, context: Context)
    | Load(request: RequestId, eventId: string, expectedVersion: nat, mutation: Mutation, now: int, scope: Scope, actorId: Option<string>)
    | Save(request: RequestId)
    | Abandon(request: RequestId)

  function ActionOf(mutation: Mutation): Action {
    match mutation
    case TransitionTo(next) => if next == Closed then ClosedEvent else Transitioned
    case AssessSeverity(_) => Reassessed
    case AuthorizeClosure(_) => ClosureAuthorized
  }

  /** What a command holds after it has loaded and changed the event; nothing when it failed. */
  function Loaded(store: Store, eventId: string, expectedVersion: nat, mutation: Mutation, now: int, scope: Scope, actorId: Option<string>): Option<Pending> {
    var found := FindById(store, eventId, scope);
    if found.None? || found.value.version != expectedVersion then None
    else
      var changed := Mutate(found.value, mutation, now);
      if changed.Failure? then None
      else Some(Pending(found.value, changed.value, mutation, Context(scope, actorId, ActionOf(mutation))))
  }

  function SaveResult(sys: System, request: RequestId): (Store, Result<(), StoreError>)
    requires request in sys.pending
  {
    var p := sys.pending[request];
    Update(sys.store, p.changed, p.base.version, p.context)
  }

  function SaveStep(sys: System, request: RequestId): System {
    if request !in sys.pending then sys else System(SaveResult(sys, request).0, sys.pending - {request})
  }

  function LoadStep(sys: System, request: RequestId, loaded: Option<Pending>): System {
    if request in sys.pending || loaded.None? then sys else sys.(pending := sys.pending[request := loaded.value])
  }

  function OpenStep(sys: System, made: Result<RoadEvent, EventError>, context: Context): System {
    if made.Failure? then sys else sys.(store := Create(sys.store, made.value, context.(action := Created)).0)
  }

  function Perform(sys: System, step: Step): System {
    match step
    case Open(id, occurredAt, latitude, longitude, severity, now, context) =>
      OpenStep(sys, NewEvent(id, context.scope.reporter, occurredAt, latitude, longitude, severity, now), context)
    case Load(request, eventId, expectedVersion, mutation, now, scope, actorId) =>
      LoadStep(sys, request, Loaded(sys.store, eventId, expectedVersion, mutation, now, scope, actorId))
    case Save(request) => SaveStep(sys, request)
    case Abandon(request) => sys.(pending := sys.pending - {request})
  }

  function PerformAll(sys: System, steps: seq<Step>): System
    decreases |steps|
  {
    if steps == [] then sys else PerformAll(Perform(sys, steps[0]), steps[1..])
  }

  const START := System(EMPTY, map[])

  lemma {:induction false} RunAppend(sys: System, steps: seq<Step>, more: seq<Step>)
    ensures PerformAll(sys, steps + more) == PerformAll(PerformAll(sys, steps), more)
    decreases |steps|
  {
    if steps == [] {
      assert steps + more == more;
    } else {
      assert (steps + more)[1..] == steps[1..] + more;
      RunAppend(Perform(sys, steps[0]), steps[1..], more);
    }
  }

  // ---------- what a timeline looks like ----------

  /** The transitions between statuses. */
  ghost const PERMITTED: set<(Status, Status)> := {
    (Detected, Validating), (Detected, FalsePositive),
    (Validating, Confirmed), (Validating, UnderReview), (Validating, FalsePositive), (Validating, Duplicate),
    (UnderReview, Validating), (UnderReview, Confirmed), (UnderReview, FalsePositive), (UnderReview, Duplicate),
    (Confirmed, SafetyAssessment), (SafetyAssessment, ResponseCoordination),
    (ResponseCoordination, RoadClearance), (ResponseCoordination, TransferredToAuthority),
    (RoadClearance, Recovery), (Recovery, Closed), (TransferredToAuthority, Closed)}

  /** Each entry starts from where the one before it ended, one version later, by a permitted
      transition or by keeping the status. */
  ghost predicate FollowsOn(before: AuditEntry, after: AuditEntry) {
    && after.before == Some(before.after)
    && after.after.version == before.after.version + 1
    && after.action != Created
    && (if after.action == Transitioned || after.action == ClosedEvent
        then (before.after.status, after.after.status) in PERMITTED && (after.action == ClosedEvent <==> after.after.status == Closed)
        else after.after.status == before.after.status)
    && (after.action != Reassessed ==> after.after.level == before.after.level)
  }

  ghost predicate IsChain(entries: seq<AuditEntry>, event: RoadEvent) {
    && entries != []
    && entries[0].before == None && entries[0].action == Created && entries[0].after.status == Detected
    && (forall j, k | 0 <= j < |entries| && 0 <= k < |entries| && k == j + 1 :: FollowsOn(entries[j], entries[k]))
    && entries[|entries| - 1].after == SnapshotOf(event)
    && event.version == |entries|
  }

  /** Closure has been authorized, and severity not reassessed since, by the first n entries. */
  ghost predicate AuthorizedBy(entries: seq<AuditEntry>, n: nat)
    requires n <= |entries|
  {
    exists m :: AuthorizedAt(entries, m, n)
  }

  ghost predicate AuthorizedAt(entries: seq<AuditEntry>, m: nat, n: nat)
    requires n <= |entries|
  {
    m < n && entries[m].action == ClosureAuthorized && forall k | m < k < n :: entries[k].action != Reassessed
  }

  /** Every closure of a high severity event in the timeline had been authorized. */
  ghost predicate ClosuresAuthorized(entries: seq<AuditEntry>) {
    forall k | 0 <= k < |entries| && entries[k].action == ClosedEvent && entries[k].after.level.IsHigh() :: AuthorizedBy(entries, k)
  }

  ghost predicate EventInv(store: Store, id: string)
    requires id in store.events
  {
    && store.events[id].id == id
    && id in store.scopes && store.scopes[id].reporter == store.events[id].reporter
    && IsChain(Timeline(store, id), store.events[id])
    && (store.events[id].closure.Some? ==> AuthorizedBy(Timeline(store, id), |Timeline(store, id)|))
    && ClosuresAuthorized(Timeline(store, id))
  }

  /** An event that still has the version a command loaded is the very event it loaded. */
  ghost predicate PendingInv(store: Store, p: Pending) {
    && p.base.id in store.events
    && p.base.version <= store.events[p.base.id].version
    && (p.base.version == store.events[p.base.id].version ==> p.base == store.events[p.base.id])
    && p.context.action == ActionOf(p.mutation)
    && Visible(store, p.base.id, p.context.scope)
    && exists now :: Mutate(p.base, p.mutation, now) == Success(p.changed)
  }

  ghost predicate EventsInv(store: Store) {
    forall id | id in store.events :: EventInv(store, id)
  }

  /** The three maps hold the same ids, each listed once. */
  ghost predicate KeysInv(store: Store) {
    && store.audit.Keys == store.events.Keys && store.scopes.Keys == store.events.Keys
    && (forall id :: id in store.order <==> id in store.events)
    && (forall i, j | 0 <= i < j < |store.order| :: store.order[i] != store.order[j])
  }

  ghost predicate StoreInv(store: Store) {
    EventsInv(store) && KeysInv(store)
  }

  ghost predicate AllPending(store: Store, pending: map<RequestId, Pending>) {
    forall request | request in pending :: PendingInv(store, pending[request])
  }

  ghost predicate Inv(sys: System) {
    StoreInv(sys.store) && AllPending(sys.store, sys.pending)
  }

  // ---------- appending to a timeline ----------

  lemma AuthorizationLasts(entries: seq<AuditEntry>, entry: AuditEntry)
    requires AuthorizedBy(entries, |entries|) && entry.action != Reassessed
    ensures AuthorizedBy(entries + [entry], |entries| + 1)
  {
    var m :| AuthorizedAt(entries, m, |entries|);
    assert AuthorizedAt(entries + [entry], m, |entries| + 1);
  }

  lemma AppendKeepsClosures(entries: seq<AuditEntry>, entry: AuditEntry)
    requires ClosuresAuthorized(entries)
    requires entry.action == ClosedEvent && entry.after.level.IsHigh() ==> AuthorizedBy(entries, |entries|)
    ensures ClosuresAuthorized(entries + [entry])
  {
    var longer := entries + [entry];
    forall k | 0 <= k < |longer| && longer[k].action == ClosedEvent && longer[k].after.level.IsHigh() ensures AuthorizedBy(longer, k) {
      assert AuthorizedBy(entries, k);
      var m :| AuthorizedAt(entries, m, k);
      assert AuthorizedAt(longer, m, k);
    }
  }

  /** Applying a mutation to a stored event, with its audit entry, keeps the event's invariant. */
  lemma ChangeKeepsTimeline(entries: seq<AuditEntry>, event: RoadEvent, changed: RoadEvent, mutation: Mutation, now: int, entry: AuditEntry)
    requires IsChain(entries, event) && ClosuresAuthorized(entries)
    requires event.closure.Some? ==> AuthorizedBy(entries, |entries|)
    requires Mutate(event, mutation, now) == Success(changed)
    requires entry.action == ActionOf(mutation) && entry.before == Some(SnapshotOf(event)) && entry.after == SnapshotOf(changed)
    ensures IsChain(entries + [entry], changed) && ClosuresAuthorized(entries + [entry])
    ensures changed.closure.Some? ==> AuthorizedBy(entries + [entry], |entries| + 1)
  {
    AppendKeepsClosures(entries, entry);
    match mutation
    case TransitionTo(_) =>
      if event.closure.Some? {
        AuthorizationLasts(entries, entry);
      }
    case AssessSeverity(_) =>
    case AuthorizeClosure(_) =>
      assert AuthorizedAt(entries + [entry], |entries|, |entries| + 1);
  }

  // ---------- each step keeps it ----------

  lemma UntouchedEvent(store: Store, next: Store, id: string)
    requires id in store.events && EventInv(store, id) && id in next.events && id in next.scopes
    requires next.events[id] == store.events[id] && next.scopes[id] == store.scopes[id] && Timeline(next, id) == Timeline(store, id)
    ensures EventInv(next, id)
  {
  }

  lemma CreateKeepsEvents(store: Store, event: RoadEvent, context: Context)
    requires StoreInv(store) && event.status == Detected && event.version == 1 && event.closure.None? && context.action == Created
    ensures EventsInv(Create(store, event, context).0)
  {
    var (next, r) := Create(store, event, context);
    if r.Success? {
      forall id | id in next.events && id != event.id ensures EventInv(next, id) {
        UntouchedEvent(store, next, id);
      }
      assert EventInv(next, event.id);
    }
  }

  lemma CreateKeepsKeys(store: Store, event: RoadEvent, context: Context)
    requires KeysInv(store)
    ensures KeysInv(Create(store, event, context).0)
  {
  }

  lemma CreateKeepsPending(store: Store, event: RoadEvent, context: Context, p: Pending)
    requires PendingInv(store, p)
    ensures PendingInv(Create(store, event, context).0, p)
  {
  }

  lemma UpdateKeepsEvents(store: Store, p: Pending)
    requires EventsInv(store) && PendingInv(store, p)
    ensures EventsInv(Update(store, p.changed, p.base.version, p.context).0)
  {
    var (next, r) := Update(store, p.changed, p.base.version, p.context);
    if r.Success? {
      var id := p.changed.id;
      UpdatedEvent(store, p);
      forall other | other in next.events && other != id ensures EventInv(next, other) {
        UntouchedEvent(store, next, other);
      }
    }
  }

  lemma UpdatedEvent(store: Store, p: Pending)
    requires PendingInv(store, p) && EventInv(store, p.base.id) && Update(store, p.changed, p.base.version, p.context).1.Success?
    ensures var next := Update(store, p.changed, p.base.version, p.context).0; p.base.id in next.events && EventInv(next, p.base.id)
  {
    var next := Update(store, p.changed, p.base.version, p.context).0;
    var id := p.base.id;
    var now :| Mutate(p.base, p.mutation, now) == Success(p.changed);
    ChangeKeepsTimeline(Timeline(store, id), store.events[id], p.changed, p.mutation, now, Timeline(next, id)[|Timeline(store, id)|]);
  }

  lemma UpdateKeepsKeys(store: Store, p: Pending)
    requires KeysInv(store)
    ensures KeysInv(Update(store, p.changed, p.base.version, p.context).0)
  {
  }

  lemma UpdateKeepsPending(store: Store, p: Pending, other: Pending)
    requires PendingInv(store, p) && PendingInv(store, other)
    ensures PendingInv(Update(store, p.changed, p.base.version, p.context).0, other)
  {
  }

  lemma LoadedIsValid(store: Store, eventId: string, expectedVersion: nat, mutation: Mutation, now: int, scope: Scope, actorId: Option<string>)
    requires StoreInv(store) && Loaded(store, eventId, expectedVersion, mutation, now, scope, actorId).Some?
    ensures PendingInv(store, Loaded(store, eventId, expectedVersion, mutation, now, scope, actorId).value)
  {
    assert EventInv(store, eventId);
  }

  /** Events and their scopes stay; versions never fall; an unchanged version means an unchanged event. */
  ghost predicate Advances(before: Store, after: Store) {
    && (forall id | id in before.events :: id in after.events && before.events[id].version <= after.events[id].version)
    && (forall id | id in before.events && id in after.events && before.events[id].version == after.events[id].version :: before.events[id] == after.events[id])
    && (forall id | id in before.scopes :: id in after.scopes && after.scopes[id] == before.scopes[id])
  }

  lemma CreateKeepsInv(sys: System, event: RoadEvent, context: Context)
    requires Inv(sys) && event.status == Detected && event.version == 1 && event.closure.None? && context.action == Created
    ensures Inv(sys.(store := Create(sys.store, event, context).0))
    ensures Advances(sys.store, Create(sys.store, event, context).0)
  {
    CreateKeepsEvents(sys.store, event, context);
    CreateKeepsKeys(sys.store, event, context);
    CreateAdvances(sys.store, event, context);
    forall r | r in sys.pending ensures PendingInv(Create(sys.store, event, context).0, sys.pending[r]) {
      CreateKeepsPending(sys.store, event, context, sys.pending[r]);
    }
  }

  lemma CreateAdvances(store: Store, event: RoadEvent, context: Context)
    requires KeysInv(store)
    ensures Advances(store, Create(store, event, context).0)
  {
  }

  lemma UpdateAdvances(store: Store, p: Pending)
    requires PendingInv(store, p)
    ensures Advances(store, Update(store, p.changed, p.base.version, p.context).0)
  {
  }

  lemma SaveKeepsPending(sys: System, request: RequestId)
    requires Inv(sys) && request in sys.pending
    ensures AllPending(SaveStep(sys, request).store, SaveStep(sys, request).pending)
  {
    var p := sys.pending[request];
    forall r | r in sys.pending ensures PendingInv(SaveStep(sys, request).store, sys.pending[r]) {
      UpdateKeepsPending(sys.store, p, sys.pending[r]);
    }
  }

  lemma SaveKeepsInv(sys: System, request: RequestId)
    requires Inv(sys) && request in sys.pending
    ensures Inv(SaveStep(sys, request)) && Advances(sys.store, SaveStep(sys, request).store)
  {
    UpdateKeepsEvents(sys.store, sys.pending[request]);
    UpdateKeepsKeys(sys.store, sys.pending[request]);
    SaveKeepsPending(sys, request);
    UpdateAdvances(sys.store, sys.pending[request]);
  }

  lemma MorePending(store: Store, pending: map<RequestId, Pending>, request: RequestId, p: Pending)
    requires AllPending(store, pending) && PendingInv(store, p)
    ensures AllPending(store, pending[request := p])
  {
  }

  lemma FewerPending(store: Store, pending: map<RequestId, Pending>, request: RequestId)
    requires AllPending(store, pending)
    ensures AllPending(store, pending - {request})
  {
  }

  lemma StayingAdvances(store: Store)
    ensures Advances(store, store)
  {
  }

  lemma OpenKeepsInv(sys: System, step: Step)
    requires Inv(sys) && step.Open?
    ensures Inv(Perform(sys, step)) && Advances(sys.store, Perform(sys, step).store)
  {
    var made := NewEvent(step.id, step.context.scope.reporter, step.occurredAt, step.latitude, step.longitude, step.severity, step.now);
    if made.Success? {
      CreateKeepsInv(sys, made.value, step.context.(action := Created));
    } else {
      StayingAdvances(sys.store);
    }
  }

  lemma LoadKeepsInv(sys: System, step: Step)
    requires Inv(sys) && step.Load?
    ensures Inv(Perform(sys, step)) && Perform(sys, step).store == sys.store
  {
    var loaded := Loaded(sys.store, step.eventId, step.expectedVersion, step.mutation, step.now, step.scope, step.actorId);
    if loaded.Some? {
      LoadedIsValid(sys.store, step.eventId, step.expectedVersion, step.mutation, step.now, step.scope, step.actorId);
      MorePending(sys.store, sys.pending, step.request, loaded.value);
    }
  }

  lemma StepKeepsInv(sys: System, step: Step)
    requires Inv(sys)
    ensures Inv(Perform(sys, step)) && Advances(sys.store, Perform(sys, step).store)
  {
    StayingAdvances(sys.store);
    match step
    case Open(_, _, _, _, _, _, _) => OpenKeepsInv(sys, step);
    case Load(_, _, _, _, _, _, _) => LoadKeepsInv(sys, step);
    case Save(request) =>
      if request in sys.pending {
        SaveKeepsInv(sys, request);
      }
    case Abandon(request) => FewerPending(sys.store, sys.pending, request);
  }

  lemma {:induction false} RunKeepsInv(sys: System, steps: seq<Step>)
    requires Inv(sys)
    ensures Inv(PerformAll(sys, steps)) && Advances(sys.store, PerformAll(sys, steps).store)
    decreases |steps|
  {
    if steps != [] {
      StepKeepsInv(sys, steps[0]);
      RunKeepsInv(Perform(sys, steps[0]), steps[1..]);
      AdvancesTransitive(sys.store, Perform(sys, steps[0]).store, PerformAll(sys, steps).store);
    }
  }

  lemma AdvancesTransitive(a: Store, b: Store, c: Store)
    requires Advances(a, b) && Advances(b, c)
    ensures Advances(a, c)
  {
  }

  // ---------- main theorems ----------

  /** Each stored event's timeline starts with its creation, each entry begins where the one before
      it ended, the last describes the stored event, and the version counts the writes. */
  lemma TimelineIsAChain(steps: seq<Step>, id: string)
    requires id in PerformAll(START, steps).store.events
    ensures IsChain(Timeline(PerformAll(START, steps).store, id), PerformAll(START, steps).store.events[id])
  {
    RunKeepsInv(START, steps);
    assert EventInv(PerformAll(START, steps).store, id);
  }

  /** Whatever ran between a command's load and its save, the save succeeds exactly when the stored
      event is still the one that was loaded, and then stores the mutation of that event: commands
      take effect one at a time and no update is lost. */
  lemma SavesAreAtomic(steps: seq<Step>, request: RequestId)
    requires request in PerformAll(START, steps).pending
    ensures var sys := PerformAll(START, steps);
      var p := sys.pending[request];
      var (after, r) := SaveResult(sys, request);
      && p.base.id in sys.store.events
      && (r.Success? <==> sys.store.events[p.base.id] == p.base)
      && (r.Success? ==> after.events == sys.store.events[p.base.id := p.changed] && p.changed.version == p.base.version + 1)
      && (!r.Success? ==> r == Failure(Stale) && after == sys.store)
  {
    RunKeepsInv(START, steps);
    assert PendingInv(PerformAll(START, steps).store, PerformAll(START, steps).pending[request]);
  }

  /** Of two commands that loaded the same version of one event at most one can ever be saved. */
  lemma SameVersionIsSavedOnce(steps: seq<Step>, winner: RequestId, loser: RequestId, later: seq<Step>)
    requires var sys := PerformAll(START, steps);
      && winner in sys.pending && loser in sys.pending && winner != loser
      && sys.pending[winner].base.id == sys.pending[loser].base.id && sys.pending[winner].base.version == sys.pending[loser].base.version
      && SaveResult(sys, winner).1.Success?
    requires var sys := PerformAll(START, steps);
      var after := PerformAll(SaveStep(sys, winner), later);
      loser in after.pending && after.pending[loser] == sys.pending[loser]
    ensures var after := PerformAll(SaveStep(PerformAll(START, steps), winner), later);
      SaveResult(after, loser) == (after.store, Failure(Stale))
  {
    RunKeepsInv(START, steps);
    LoserIsStale(PerformAll(START, steps), winner, loser, later);
  }

  lemma LoserIsStale(sys: System, winner: RequestId, loser: RequestId, later: seq<Step>)
    requires Inv(sys) && winner in sys.pending && loser in sys.pending
    requires sys.pending[winner].base.id == sys.pending[loser].base.id && sys.pending[winner].base.version == sys.pending[loser].base.version
    requires SaveResult(sys, winner).1.Success?
    requires var after := PerformAll(SaveStep(sys, winner), later); loser in after.pending && after.pending[loser] == sys.pending[loser]
    ensures var after := PerformAll(SaveStep(sys, winner), later); SaveResult(after, loser) == (after.store, Failure(Stale))
  {
    SaveKeepsInv(sys, winner);
    SaveOvertakes(sys, winner);
    OvertakenLoses(SaveStep(sys, winner), later, loser, sys.pending[loser]);
  }

  lemma SaveOvertakes(sys: System, winner: RequestId)
    requires winner in sys.pending && PendingInv(sys.store, sys.pending[winner]) && SaveResult(sys, winner).1.Success?
    ensures var p := sys.pending[winner];
      p.base.id in SaveStep(sys, winner).store.events && SaveStep(sys, winner).store.events[p.base.id].version > p.base.version
  {
    SaveRaisesVersion(sys.store, sys.pending[winner]);
  }

  lemma OvertakenLoses(sys: System, later: seq<Step>, loser: RequestId, p: Pending)
    requires Inv(sys) && p.base.id in sys.store.events && sys.store.events[p.base.id].version > p.base.version
    requires loser in PerformAll(sys, later).pending && PerformAll(sys, later).pending[loser] == p
    ensures SaveResult(PerformAll(sys, later), loser) == (PerformAll(sys, later).store, Failure(Stale))
  {
    var after := PerformAll(sys, later);
    RunKeepsInv(sys, later);
    StaysAhead(sys.store, after.store, p);
    OvertakenIsStale(after.store, p);
  }

  lemma StaysAhead(before: Store, after: Store, p: Pending)
    requires Advances(before, after) && p.base.id in before.events && before.events[p.base.id].version > p.base.version
    ensures p.base.id in after.events && after.events[p.base.id].version > p.base.version
  {
  }

  lemma SaveRaisesVersion(store: Store, p: Pending)
    requires PendingInv(store, p) && Update(store, p.changed, p.base.version, p.context).1.Success?
    ensures p.base.id in Update(store, p.changed, p.base.version, p.context).0.events
    ensures Update(store, p.changed, p.base.version, p.context).0.events[p.base.id].version > p.base.version
  {
  }

  lemma OvertakenIsStale(store: Store, p: Pending)
    requires PendingInv(store, p) && store.events[p.base.id].version > p.base.version
    ensures Update(store, p.changed, p.base.version, p.context) == (store, Failure(Stale))
  {
  }

  /** An event of severity S3 or S4 is only ever closed after a human authorized its closure, with
      no reassessment of severity in between. */
  lemma HighSeverityClosureWasAuthorized(steps: seq<Step>, id: string, k: nat)
    requires var entries := Timeline(PerformAll(START, steps).store, id);
      k < |entries| && entries[k].action == ClosedEvent && entries[k].after.level.IsHigh()
    ensures var entries := Timeline(PerformAll(START, steps).store, id);
      exists m :: 0 <= m < k && entries[m].action == ClosureAuthorized && forall n | m < n < k :: entries[n].action != Reassessed
  {
    RunKeepsInv(START, steps);
    var store := PerformAll(START, steps).store;
    assert id in store.events && EventInv(store, id);
    var m :| AuthorizedAt(Timeline(store, id), m, k);
  }

  /** The status of an event that is closed, a false positive or a duplicate never changes again. */
  lemma ClosedStaysClosed(steps: seq<Step>, id: string, k: nat, n: nat)
    requires var entries := Timeline(PerformAll(START, steps).store, id);
      k <= n < |entries| && entries[k].after.status in {Closed, FalsePositive, Duplicate}
    ensures var entries := Timeline(PerformAll(START, steps).store, id);
      entries[n].after.status == entries[k].after.status
  {
    RunKeepsInv(START, steps);
    var store := PerformAll(START, steps).store;
    assert id in store.events && EventInv(store, id);
    TerminalLasts(Timeline(store, id), store.events[id], k, n);
  }

  lemma {:induction false} TerminalLasts(entries: seq<AuditEntry>, event: RoadEvent, k: nat, n: nat)
    requires IsChain(entries, event) && k <= n < |entries| && entries[k].after.status in {Closed, FalsePositive, Duplicate}
    ensures entries[n].after.status == entries[k].after.status
    decreases n
  {
    if k < n {
      TerminalLasts(entries, event, k, n - 1);
      assert FollowsOn(entries[n - 1], entries[n]);
    }
  }

  // ---------- listing ----------

  lemma ListsEveryEventOnce(store: Store)
    requires StoreInv(store)
    ensures Distinct(Events(store))
    ensures forall e: RoadEvent :: e in Events(store) <==> e.id in store.events && store.events[e.id] == e
  {
    forall i | 0 <= i < |store.order| ensures Events(store)[i].id == store.order[i] {
      assert EventInv(store, store.order[i]);
    }
    forall e: RoadEvent | e.id in store.events && store.events[e.id] == e ensures e in Events(store) {
      var i :| 0 <= i < |store.order| && store.order[i] == e.id;
      assert Events(store)[i] == e;
    }
  }

  lemma NewestFirstIsTotal()
    ensures TotalPreorder(NewestFirst)
  {
  }

  /** The event passes every filter that the query has. */
  ghost predicate AskedFor(e: RoadEvent, query: Query) {
    && (query.statuses.Some? ==> e.status in query.statuses.value)
    && (query.severities.Some? ==> e.severity.level in query.severities.value)
    && (query.occurredFrom.Some? ==> query.occurredFrom.value <= e.occurredAt)
    && (query.occurredTo.Some? ==> e.occurredAt < query.occurredTo.value)
  }

  /** A listing holds exactly the stored events that the scope finds and the query asks for, each once, newest
      first, and its pages laid end to end are the listing. */
  lemma ListingIsExact(steps: seq<Step>, query: Query, scope: Scope)
    ensures var store := PerformAll(START, steps).store;
      forall id | id in store.order :: id in store.events
    ensures var store := PerformAll(START, steps).store;
      var items := Listing(store, query, scope);
      && (forall e: RoadEvent :: e in items <==> FindById(store, e.id, scope) == Some(e) && AskedFor(e, query))
      && Distinct(items)
      && (forall i, j | 0 <= i < j < |items| :: items[i].occurredAt >= items[j].occurredAt)
  {
    RunKeepsInv(START, steps);
    var store := PerformAll(START, steps).store;
    ListingHolds(store, query, scope);
    forall e: RoadEvent ensures e in Listing(store, query, scope) <==> FindById(store, e.id, scope) == Some(e) && AskedFor(e, query) {
      assert Wanted(e, query) <==> AskedFor(e, query);
    }
  }

  lemma ListingHolds(store: Store, query: Query, scope: Scope)
    requires StoreInv(store)
    ensures var items := Listing(store, query, scope);
      && (forall e: RoadEvent :: e in items <==> e.id in store.events && store.events[e.id] == e && Visible(store, e.id, scope) && Wanted(e, query))
      && Distinct(items)
      && (forall i, j | 0 <= i < j < |items| :: items[i].occurredAt >= items[j].occurredAt)
  {
    ListsEveryEventOnce(store);
    var keep := Listed(store, query, scope);
    var kept := Filter(Events(store), keep);
    FilterKeepsDistinct(Events(store), keep);
    SortPermutes(kept, NewestFirst);
    DistinctPermuted(kept, Sort(kept, NewestFirst));
    NewestFirstIsTotal();
    SortSorts(kept, NewestFirst);
    assert Listing(store, query, scope) == Sort(kept, NewestFirst);
    var items := Listing(store, query, scope);
    forall i, j | 0 <= i < j < |items| ensures items[i].occurredAt >= items[j].occurredAt {
      assert NewestFirst(items[i], items[j]);
    }
  }

  /** The first n pages of a query, one after another. */
  function Pages(store: Store, query: Query, scope: Scope, n: nat): seq<RoadEvent>
    requires forall id | id in store.order :: id in store.events
  {
    if n == 0 then [] else Pages(store, query, scope, n - 1) + List(store, query.(offset := (n - 1) * query.limit), scope).items
  }

  lemma {:induction false} PagesTile(store: Store, query: Query, scope: Scope, n: nat)
    requires forall id | id in store.order :: id in store.events
    ensures Pages(store, query, scope, n) == Slice(Listing(store, query, scope), 0, n * query.limit)
    ensures n > 0 ==> List(store, query.(offset := (n - 1) * query.limit), scope).total == |Listing(store, query, scope)|
  {
    if n > 0 {
      PagesTile(store, query, scope, n - 1);
      OnePage(store, query, scope, (n - 1) * query.limit);
      assert (n - 1) * query.limit + query.limit == n * query.limit;
    }
  }

  lemma OnePage(store: Store, query: Query, scope: Scope, from: nat)
    requires forall id | id in store.order :: id in store.events
    ensures var items := Listing(store, query, scope);
      && Slice(items, 0, from) + List(store, query.(offset := from), scope).items == Slice(items, 0, from + query.limit)
      && List(store, query.(offset := from), scope).total == |items|
  {
    OffsetDoesNotMatter(store, query, query.(offset := from), scope);
    SlicesJoin(Listing(store, query, scope), from, query.limit);
  }

  lemma SlicesJoin<T>(s: seq<T>, from: nat, count: nat)
    ensures Slice(s, 0, from) + Slice(s, from, count) == Slice(s, 0, from + count)
  {
  }

  lemma OffsetDoesNotMatter(store: Store, a: Query, b: Query, scope: Scope)
    requires forall id | id in store.order :: id in store.events
    requires a == b.(offset := a.offset)
    ensures Listing(store, a, scope) == Listing(store, b, scope)
  {
    FilterSame(Events(store), Listed(store, a, scope), Listed(store, b, scope));
  }
}
