/** MemoryRoadEventRepository as the object the service writes through. */
module RoadEventRepository {
  import opened Wrappers
  import opened RoadEvents
  import opened RoadEventStore
  import opened StableSort

  class MemoryRoadEventRepository {
    var events: map<string, RoadEvent>
    var scopes: map<string, Scope>
    var audit: map<string, seq<AuditEntry>>
    var order: seq<string>

    constructor ()
      ensures Value() == EMPTY
    {
      events, scopes, audit, order := map[], map[], map[], [];
    }

    function Value(): Store
      reads this
    {
      Store(events, scopes, audit, order)
    }

    method AppendAudit(id: string, context: Context, before: Option<Snapshot>, after: Snapshot)
      modifies this`audit
      ensures Value() == RoadEventStore.AppendAudit(old(Value()), id, context, before, after)
    {
      var entries := if id in audit then audit[id] else [];
      entries := entries + [AuditEntry(context.action, context.actorId, before, after)];
      audit := audit[id := entries];
    }

    method Create(event: RoadEvent, context: Context) returns (r: Result<(), StoreError>)
      modifies this
      ensures (Value(), r) == RoadEventStore.Create(old(Value()), event, context)
    {
      if event.id in events {
        return Failure(AlreadyExists);
      }
      if context.scope.reporter.Some? && context.actorId != context.scope.reporter {
        return Failure(ReporterMismatch);
      }
      if event.reporter != context.scope.reporter {
        return Failure(ReporterMismatch);
      }
      events, order := events[event.id := event], order + [event.id];
      scopes := scopes[event.id := Scope(context.scope.tenantId, context.scope.purpose, event.reporter)];
      AppendAudit(event.id, context, None, SnapshotOf(event));
      return Success(());
    }

    method Update(event: RoadEvent, expectedVersion: nat, context: Context) returns (r: Result<(), StoreError>)
      modifies this
      ensures (Value(), r) == RoadEventStore.Update(old(Value()), event, expectedVersion, context)
    {
      if event.id !in events || event.id !in scopes || !SameScope(scopes[event.id], context.scope) {
        return Failure(NotFound);
      }
      var current := events[event.id];
      if current.version != expectedVersion {
        return Failure(Stale);
      }
      events := events[event.id := event];
      AppendAudit(event.id, context, Some(SnapshotOf(current)), SnapshotOf(event));
      return Success(());
    }

    method FindById(id: string, scope: Scope) returns (r: Option<RoadEvent>)
      ensures r == RoadEventStore.FindById(Value(), id, scope)
    {
      if id !in events || id !in scopes || !SameScope(scopes[id], scope) {
        return None;
      }
      return Some(events[id]);
    }

    method ListForRoadEvent(id: string, scope: Scope) returns (entries: seq<AuditEntry>)
      ensures entries == TimelineFor(Value(), id, scope)
    {
      if id !in scopes || !SameScope(scopes[id], scope) {
        return [];
      }
      return if id in audit then audit[id] else [];
    }

    /** The events of the scope, in insertion order. */
    method Visible(scope: Scope) returns (items: seq<RoadEvent>)
      requires forall id | id in order :: id in events && events[id].id == id
      ensures items == Filter(Events(Value()), InScope(Value(), scope))
    {
      items := [];
      for n := 0 to |order|
        invariant items == Filter(Events(Value())[..n], InScope(Value(), scope))
      {
        var id := order[n];
        assert Events(Value())[n] == events[id];
        FilterNext(Events(Value()), n, InScope(Value(), scope));
        if id in scopes && SameScope(scopes[id], scope) {
          items := items + [events[id]];
        }
      }
      assert Events(Value())[..|order|] == Events(Value());
    }

    /** One filter after another, then the sort and the slice. */
    method List(query: Query, scope: Scope) returns (page: Page)
      requires forall id | id in order :: id in events && events[id].id == id
      ensures page == RoadEventStore.List(Value(), query, scope)
    {
      var visible := Visible(scope);
      var items := visible;
      if query.statuses.Some? {
        items := Keep(items, OfStatus(query));
      }
      if query.severities.Some? {
        items := Keep(items, OfSeverity(query));
      }
      if query.occurredFrom.Some? {
        items := Keep(items, NotBefore(query));
      }
      if query.occurredTo.Some? {
        items := Keep(items, Until(query));
      }
      FiltersCompose(visible, query);
      VisibleThenWanted(Value(), query, scope);
      items := Sort(items, NewestFirst);
      page := Page(Slice(items, query.offset, query.limit), |items|);
    }
  }

  method Keep(items: seq<RoadEvent>, keep: RoadEvent -> bool) returns (kept: seq<RoadEvent>)
    ensures kept == Filter(items, keep)
  {
    kept := [];
    for n := 0 to |items|
      invariant kept == Filter(items[..n], keep)
    {
      FilterNext(items, n, keep);
      if keep(items[n]) {
        kept := kept + [items[n]];
      }
    }
    assert items[..|items|] == items;
  }

  function InScope(store: Store, scope: Scope): RoadEvent -> bool {
    (e: RoadEvent) => RoadEventStore.Visible(store, e.id, scope)
  }

  function OfStatus(query: Query): RoadEvent -> bool {
    (e: RoadEvent) => query.statuses.None? || e.status in query.statuses.value
  }

  function OfSeverity(query: Query): RoadEvent -> bool {
    (e: RoadEvent) => query.severities.None? || e.severity.level in query.severities.value
  }

  function NotBefore(query: Query): RoadEvent -> bool {
    (e: RoadEvent) => query.occurredFrom.None? || e.occurredAt >= query.occurredFrom.value
  }

  function Until(query: Query): RoadEvent -> bool {
    (e: RoadEvent) => query.occurredTo.None? || e.occurredAt < query.occurredTo.value
  }

  function IsWanted(query: Query): RoadEvent -> bool {
    (e: RoadEvent) => Wanted(e, query)
  }

  /** A filter that keeps everything may be left out. */
  lemma {:induction false} FilterUnlessIdle(s: seq<RoadEvent>, keep: RoadEvent -> bool, asked: bool)
    requires !asked ==> forall e :: keep(e)
    ensures (if asked then Filter(s, keep) else s) == Filter(s, keep)
  {
    if !asked && s != [] {
      FilterUnlessIdle(s[..|s| - 1], keep, asked);
      assert s == s[..|s| - 1] + [s[|s| - 1]];
    }
  }

  /** The filters one after another, those that the query does not ask for left out. */
  function Chain(s: seq<RoadEvent>, query: Query): seq<RoadEvent> {
    var a := if query.statuses.Some? then Filter(s, OfStatus(query)) else s;
    var b := if query.severities.Some? then Filter(a, OfSeverity(query)) else a;
    var c := if query.occurredFrom.Some? then Filter(b, NotBefore(query)) else b;
    if query.occurredTo.Some? then Filter(c, Until(query)) else c
  }

  lemma FiltersCompose(s: seq<RoadEvent>, query: Query)
    ensures Chain(s, query) == Filter(s, IsWanted(query))
  {
    var a := Filter(s, OfStatus(query));
    var b := Filter(a, OfSeverity(query));
    var c := Filter(b, NotBefore(query));
    FilterUnlessIdle(s, OfStatus(query), query.statuses.Some?);
    FilterUnlessIdle(a, OfSeverity(query), query.severities.Some?);
    FilterUnlessIdle(b, NotBefore(query), query.occurredFrom.Some?);
    FilterUnlessIdle(c, Until(query), query.occurredTo.Some?);
    ChainJoins(s, query);
  }

  lemma ChainJoins(s: seq<RoadEvent>, query: Query)
    ensures Filter(Filter(Filter(Filter(s, OfStatus(query)), OfSeverity(query)), NotBefore(query)), Until(query)) == Filter(s, IsWanted(query))
  {
    FilterTwice(s, OfStatus(query), OfSeverity(query), OfKind(query));
    FilterTwice(s, OfKind(query), NotBefore(query), OfKindSince(query));
    FilterTwice(s, OfKindSince(query), Until(query), IsWanted(query));
  }

  function OfKind(query: Query): RoadEvent -> bool {
    (e: RoadEvent) => OfStatus(query)(e) && OfSeverity(query)(e)
  }

  function OfKindSince(query: Query): RoadEvent -> bool {
    (e: RoadEvent) => OfKind(query)(e) && NotBefore(query)(e)
  }

  lemma VisibleThenWanted(store: Store, query: Query, scope: Scope)
    requires forall id | id in store.order :: id in store.events
    ensures Sort(Filter(Filter(Events(store), InScope(store, scope)), IsWanted(query)), NewestFirst) == Listing(store, query, scope)
  {
    FilterTwice(Events(store), InScope(store, scope), IsWanted(query), Listed(store, query, scope));
  }
}
