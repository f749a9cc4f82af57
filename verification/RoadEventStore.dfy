/** MemoryRoadEventRepository: the events, the scope each belongs to, and the audit timeline. */
module RoadEventStore {
  import opened Wrappers
  import opened StableSort
  import opened RoadEvents

  /** `reporter` is present only for a least-privilege field user. */
  datatype Scope = Scope(tenantId: string, purpose: string, reporter: Option<string>)

  datatype Action = Created | Reassessed | Transitioned | ClosedEvent | ClosureAuthorized

  datatype Context = Context(scope: Scope, actorId: Option<string>, action: Action)

  datatype Snapshot = Snapshot(id: string, status: Status, level: Level, version: nat, occurredAt: int)

  datatype AuditEntry = AuditEntry(action: Action, actorId: Option<string>, before: Option<Snapshot>, after: Snapshot)

  /** `order` is the insertion order of the events map, in which entries() lists it. */
  datatype Store = Store(
    events: map<string, RoadEvent>, scopes: map<string, Scope>, audit: map<string, seq<AuditEntry>>, order: seq<string>)

  datatype StoreError = AlreadyExists | ReporterMismatch | NotFound | Stale

  const EMPTY := Store(map[], map[], map[], [])

  function SnapshotOf(event: RoadEvent): Snapshot {
    Snapshot(event.id, event.status, event.severity.level, event.version, event.occurredAt)
  }

  /** Not symmetric: a query without a reporter sees every reporter's events. */
  predicate SameScope(left: Scope, right: Scope) {
    left.tenantId == right.tenantId && left.purpose == right.purpose && (right.reporter.None? || left.reporter == right.reporter)
  }

  function Timeline(store: Store, id: string): seq<AuditEntry> {
    if id in store.audit then store.audit[id] else []
  }

  function AppendAudit(store: Store, id: string, context: Context, before: Option<Snapshot>, after: Snapshot): Store {
    store.(audit := store.audit[id := Timeline(store, id) + [AuditEntry(context.action, context.actorId, before, after)]])
  }

  function Create(store: Store, event: RoadEvent, context: Context): (Store, Result<(), StoreError>) {
    if event.id in store.events then (store, Failure(AlreadyExists))
    else if context.scope.reporter.Some? && context.actorId != context.scope.reporter then (store, Failure(ReporterMismatch))
    else if event.reporter != context.scope.reporter then (store, Failure(ReporterMismatch))
    else
      var stored := store.(
        events := store.events[event.id := event],
        scopes := store.scopes[event.id := Scope(context.scope.tenantId, context.scope.purpose, event.reporter)],
        order := store.order + [event.id]);
      (AppendAudit(stored, event.id, context, None, SnapshotOf(event)), Success(()))
  }

  predicate Visible(store: Store, id: string, scope: Scope) {
    id in store.events && id in store.scopes && SameScope(store.scopes[id], scope)
  }

  function Update(store: Store, event: RoadEvent, expectedVersion: nat, context: Context): (Store, Result<(), StoreError>) {
    if !Visible(store, event.id, context.scope) then (store, Failure(NotFound))
    else if store.events[event.id].version != expectedVersion then (store, Failure(Stale))
    else
      var current := store.events[event.id];
      (AppendAudit(store.(events := store.events[event.id := event]), event.id, context, Some(SnapshotOf(current)), SnapshotOf(event)), Success(()))
  }

  function FindById(store: Store, id: string, scope: Scope): Option<RoadEvent> {
    if Visible(store, id, scope) then Some(store.events[id]) else None
  }

  /** listForRoadEvent */
  function TimelineFor(store: Store, id: string, scope: Scope): seq<AuditEntry> {
    if id in store.scopes && SameScope(store.scopes[id], scope) then Timeline(store, id) else []
  }

  // ---------- list ----------

  datatype Query = Query(
    statuses: Option<set<Status>>, severities: Option<set<Level>>, occurredFrom: Option<int>, occurredTo: Option<int>,
    limit: nat, offset: nat)

  datatype Page = Page(items: seq<RoadEvent>, total: nat)

  predicate Wanted(event: RoadEvent, query: Query) {
    && (query.statuses.None? || event.status in query.statuses.value)
    && (query.severities.None? || event.severity.level in query.severities.value)
    && (query.occurredFrom.None? || event.occurredAt >= query.occurredFrom.value)
    && (query.occurredTo.None? || event.occurredAt < query.occurredTo.value)
  }

  predicate NewestFirst(left: RoadEvent, right: RoadEvent) {
    left.occurredAt >= right.occurredAt
  }

  function Events(store: Store): seq<RoadEvent>
    requires forall id | id in store.order :: id in store.events
  {
    seq(|store.order|, i requires 0 <= i < |store.order| => store.events[store.order[i]])
  }

  function Listed(store: Store, query: Query, scope: Scope): RoadEvent -> bool {
    (e: RoadEvent) => Visible(store, e.id, scope) && Wanted(e, query)
  }

  function Listing(store: Store, query: Query, scope: Scope): seq<RoadEvent>
    requires forall id | id in store.order :: id in store.events
  {
    Sort(Filter(Events(store), Listed(store, query, scope)), NewestFirst)
  }

  function Slice<T>(s: seq<T>, from: nat, count: nat): seq<T> {
    if from >= |s| then [] else if from + count >= |s| then s[from..] else s[from..from + count]
  }

  function List(store: Store, query: Query, scope: Scope): Page
    requires forall id | id in store.order :: id in store.events
  {
    var items := Listing(store, query, scope);
    Page(Slice(items, query.offset, query.limit), |items|)
  }
}
