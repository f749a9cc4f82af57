/** The command center's state between an operator's commands: what has been loaded, whether it counts
    as stale, and what may be done with the selected case. */
module CommandCenterSession {
  import opened Wrappers
  import opened SafetyTransition
  import opened CommandCenter

  datatype ViewPhase = Loading | Ready | EmptyPage | FailedPhase

  datatype ActionKind = Takeover | EscalateCase | Reassign | AuthorizeResolution

  /** What the gateway answers to an action. */
  datatype Answer = Updated(item: Item) | RequestError | OtherError

  datatype Session = Session(actorId: string, roles: set<Role>, staleAfterMs: Option<int>)
  {
    function StaleAfter(): int {
      if staleAfterMs.Some? then staleAfterMs.value else DEFAULT_STALE_AFTER_MS
    }
  }

  const DEFAULT_STALE_AFTER_MS := 15_000

  datatype State = State(
    phase: ViewPhase, items: seq<Item>, selected: Option<Item>, filter: Filter, stale: bool, lastUpdatedAt: Option<int>)

  const INITIAL := State(Loading, [], None, All, false, None)

  /** One awaited call of the controller.  A page or a selected case is None when the gateway fails. */
  datatype Step =
    | LoadPage(page: Option<seq<Item>>, now: int)
    | SelectCase(answer: Option<Item>, now: int)
    | ChooseFilter(filter: Filter)
    | RefreshStaleness(now: int)
    | Act(kind: ActionKind, outcome: Answer, now: int)

  function ReplaceCase(items: seq<Item>, updated: Item): (r: seq<Item>)
    ensures |r| == |items|
    ensures forall i | 0 <= i < |items| :: r[i] == if items[i].id == updated.id then updated else items[i]
  {
    seq(|items|, i requires 0 <= i < |items| => if items[i].id == updated.id then updated else items[i])
  }

  /** The linear search of find. */
  function FindCase(items: seq<Item>, id: string): (r: Option<Item>)
    ensures r.Some? ==> r.value in items && r.value.id == id
    ensures r.None? ==> forall item | item in items :: item.id != id
  {
    if items == [] then None
    else if items[0].id == id then Some(items[0])
    else FindCase(items[1..], id)
  }

  predicate HasRole(roles: set<Role>, allowed: set<Role>) {
    roles * allowed != {}
  }

  /** What the case and the operator's roles allow. */
  predicate Permits(item: Item, kind: ActionKind, roles: set<Role>) {
    match kind
    case Takeover =>
      && HasRole(roles, {Operator, Supervisor, SafetyLead}) && item.state != CaseState.Resolved
      && item.dependencies != DependenciesUnavailable && item.connectivity != Lost
    case EscalateCase =>
      && HasRole(roles, {Operator, Supervisor, SafetyLead}) && item.state != CaseState.Resolved
      && item.dependencies != DependenciesUnavailable
    case Reassign =>
      && HasRole(roles, {Supervisor, SafetyLead}) && item.state != CaseState.Resolved
      && item.dependencies != DependenciesUnavailable
    case AuthorizeResolution =>
      && HasRole(roles, {Supervisor, SafetyLead}) && item.state == Monitored
      && item.evidenceTrusted && item.connectivity == Healthy && item.dependencies == DependenciesHealthy
  }

  predicate Can(session: Session, s: State, kind: ActionKind) {
    s.selected.Some? && !s.stale && s.phase == Ready && Permits(s.selected.value, kind, session.roles)
  }

  /** A case that the gateway has just returned. */
  function Shown(s: State, item: Item, now: int): State {
    s.(phase := Ready, selected := Some(item), items := ReplaceCase(s.items, item), stale := false, lastUpdatedAt := Some(now))
  }

  function Loaded(s: State, page: seq<Item>, now: int): State {
    State(if page == [] then EmptyPage else Ready, page,
          if s.selected.None? then None else FindCase(page, s.selected.value.id), s.filter, false, Some(now))
  }

  /** Data that have aged past the limit; what a request error said is forgotten. */
  function Aged(session: Session, s: State, now: int): State {
    s.(stale := s.lastUpdatedAt.Some? && now - s.lastUpdatedAt.value > session.StaleAfter())
  }

  function Next(session: Session, s: State, step: Step): State {
    match step
    case LoadPage(page, now) => if page.None? then s.(phase := FailedPhase) else Loaded(s, page.value, now)
    case SelectCase(answer, now) => if answer.None? then s.(phase := FailedPhase) else Shown(s, answer.value, now)
    case ChooseFilter(filter) => s.(filter := filter)
    case RefreshStaleness(now) => Aged(session, s, now)
    case Act(kind, outcome, now) =>
      if !Can(session, s, kind) then s
      else match outcome
        case Updated(item) => Shown(s, item, now)
        case RequestError => s.(stale := true)
        case OtherError => s
  }

  function After(session: Session, s: State, steps: seq<Step>): State {
    if steps == [] then s else Next(session, After(session, s, steps[..|steps| - 1]), steps[|steps| - 1])
  }

  // ---------- what may be done ----------

  /** An action takes a selected case, fresh data, and a human role, a senior one for reassigning and for
      authorizing a resolution.  A case is resolved from monitoring only, with everything in order; other
      actions take a case that is not resolved and dependencies that are there, a takeover also a connection. */
  lemma CanMeans(session: Session, s: State, kind: ActionKind)
    ensures Can(session, s, kind) <==>
      && s.selected.Some? && s.phase == Ready && !s.stale
      && (SafetyLead in session.roles || Supervisor in session.roles || (Operator in session.roles && kind in {Takeover, EscalateCase}))
      && var item := s.selected.value;
      if kind == AuthorizeResolution then
        item.state == Monitored && item.evidenceTrusted && item.connectivity == Healthy && item.dependencies == DependenciesHealthy
      else
        && item.state != CaseState.Resolved && item.dependencies in {DependenciesHealthy, DependenciesDegraded}
        && (kind == Takeover ==> item.connectivity in {Healthy, Degraded})
  {
    forall allowed: set<Role> ensures HasRole(session.roles, allowed) <==> exists role | role in session.roles :: role in allowed {
      if role :| role in session.roles * allowed {
      }
      if role :| role in session.roles && role in allowed {
        assert role in session.roles * allowed;
      }
    }
  }

  /** Where an authorized resolution is possible, the state machine allows the resolution of a case that is not
      of high risk to the same people in the same circumstances. */
  lemma AuthorizableMayBeResolved(session: Session, s: State, c: Case, context: Context)
    requires Can(session, s, AuthorizeResolution) && !c.severity.HighRisk()
    requires c.state == s.selected.value.state && context.roles == session.roles && context.connectivity == s.selected.value.connectivity
    requires context.evidence == Trusted && context.dependenciesHealthy
    requires context.actorId != "" && context.reason != "" && context.traceId != "" && context.occurredAt.Some?
    ensures Decide(c, CaseState.Resolved, context).allowed
  {
    CanMeans(session, s, AuthorizeResolution);
    AuthorizedMeans(context.roles, Resolve);
  }

  // ---------- staleness over runs ----------

  /** No step loads or selects. */
  ghost predicate Unloaded(steps: seq<Step>) {
    forall step | step in steps :: !step.LoadPage? && !step.SelectCase?
  }

  /** A refresh while the data of s are still young enough. */
  predicate TimelyRefresh(session: Session, s: State, step: Step) {
    step.RefreshStaleness? && (s.lastUpdatedAt.None? || step.now - s.lastUpdatedAt.value <= session.StaleAfter())
  }

  /** The state differs from s in the filter and in staleness only. */
  predicate SameCases(s: State, t: State) {
    t == s.(filter := t.filter, stale := t.stale)
  }

  lemma AfterOneMore(session: Session, s: State, steps: seq<Step>, n: nat)
    requires n < |steps|
    ensures After(session, s, steps[..n + 1]) == Next(session, After(session, s, steps[..n]), steps[n])
  {
    assert steps[..n + 1][..n] == steps[..n];
  }

  lemma {:induction false} SelectedIsDated(session: Session, history: seq<Step>)
    ensures After(session, INITIAL, history).selected.Some? ==> After(session, INITIAL, history).lastUpdatedAt.Some?
  {
    if history != [] {
      SelectedIsDated(session, history[..|history| - 1]);
    }
  }

  /** Until a timely refresh, stale data stay as they are and stale. */
  lemma {:induction false} StaleUntilRefreshed(session: Session, s: State, steps: seq<Step>, n: nat)
    requires s.stale && Unloaded(steps) && n <= |steps|
    requires forall i | 0 <= i < n :: !TimelyRefresh(session, s, steps[i])
    ensures SameCases(s, After(session, s, steps[..n])) && After(session, s, steps[..n]).stale
  {
    if n > 0 {
      StaleUntilRefreshed(session, s, steps, n - 1);
      AfterOneMore(session, s, steps, n - 1);
      assert steps[n - 1] in steps;
    }
  }

  lemma TimelyRefreshRestores(session: Session, s: State, steps: seq<Step>, n: nat)
    requires s.stale && Unloaded(steps) && n < |steps|
    requires TimelyRefresh(session, s, steps[n]) && forall i | 0 <= i < n :: !TimelyRefresh(session, s, steps[i])
    ensures SameCases(s, After(session, s, steps[..n + 1])) && !After(session, s, steps[..n + 1]).stale
  {
    StaleUntilRefreshed(session, s, steps, n);
    AfterOneMore(session, s, steps, n);
  }

  lemma {:induction false} FirstTimely(session: Session, s: State, steps: seq<Step>, m: nat) returns (n: nat)
    requires m < |steps| && TimelyRefresh(session, s, steps[m])
    ensures n <= m && TimelyRefresh(session, s, steps[n]) && forall i | 0 <= i < n :: !TimelyRefresh(session, s, steps[i])
    decreases m
  {
    if i :| 0 <= i < m && TimelyRefresh(session, s, steps[i]) {
      n := FirstTimely(session, s, steps, i);
    } else {
      n := m;
    }
  }

  /** The state after this run and then this action, which met a request error. */
  function Refused(session: Session, history: seq<Step>, kind: ActionKind, now: int): State {
    Next(session, After(session, INITIAL, history), Act(kind, RequestError, now))
  }

  /** A refresh not later than staleAfterMs after the data of s arrived. */
  ghost predicate RefreshedInTime(session: Session, s: State, steps: seq<Step>)
    requires s.lastUpdatedAt.Some?
  {
    exists n | 0 <= n < |steps| :: steps[n].RefreshStaleness? && steps[n].now - s.lastUpdatedAt.value <= session.StaleAfter()
  }

  /** A request error makes the view stale, but refreshing the staleness forgets the error.  As long as
      nothing is loaded or selected, an action is possible again, and the refused one is, exactly when
      a refresh came at most staleAfterMs after the data arrived. */
  lemma RequestErrorBlocksUntilRefresh(session: Session, history: seq<Step>, kind: ActionKind, now: int, steps: seq<Step>)
    requires Can(session, After(session, INITIAL, history), kind) && Unloaded(steps)
    ensures var s := Refused(session, history, kind, now);
      && s.lastUpdatedAt.Some?
      && ((exists n | 0 <= n <= |steps| :: Can(session, After(session, s, steps[..n]), kind)) <==> RefreshedInTime(session, s, steps))
      && ((exists n, other | 0 <= n <= |steps| :: Can(session, After(session, s, steps[..n]), other)) <==> RefreshedInTime(session, s, steps))
  {
    var s := Refused(session, history, kind, now);
    SelectedIsDated(session, history);
    if m :| 0 <= m < |steps| && steps[m].RefreshStaleness? && steps[m].now - s.lastUpdatedAt.value <= session.StaleAfter() {
      var n := FirstTimely(session, s, steps, m);
      TimelyRefreshRestores(session, s, steps, n);
      assert Can(session, After(session, s, steps[..n + 1]), kind);
    } else {
      forall n, other | 0 <= n <= |steps| ensures !Can(session, After(session, s, steps[..n]), other) {
        StaleUntilRefreshed(session, s, steps, n);
      }
    }
  }

  /** No step loads or selects and no action in it is permitted. */
  ghost predicate Idle(session: Session, s: State, steps: seq<Step>) {
    && Unloaded(steps)
    && forall n | 0 <= n < |steps| && steps[n].Act? :: !Can(session, After(session, s, steps[..n]), steps[n].kind)
  }

  /** The time of the last refresh. */
  function LastRefresh(steps: seq<Step>): Option<int> {
    if steps == [] then None
    else if steps[|steps| - 1].RefreshStaleness? then Some(steps[|steps| - 1].now)
    else LastRefresh(steps[..|steps| - 1])
  }

  lemma {:induction false} StaleAsLastRefreshSays(session: Session, s: State, steps: seq<Step>)
    requires s.stale && s.lastUpdatedAt.Some? && Idle(session, s, steps)
    ensures SameCases(s, After(session, s, steps))
    ensures After(session, s, steps).stale <==>
      LastRefresh(steps).None? || LastRefresh(steps).value - s.lastUpdatedAt.value > session.StaleAfter()
    decreases |steps|
  {
    if steps != [] {
      var front := steps[..|steps| - 1];
      forall n | 0 <= n < |front| && front[n].Act? ensures !Can(session, After(session, s, front[..n]), front[n].kind) {
        assert front[..n] == steps[..n] && front[n] == steps[n];
      }
      StaleAsLastRefreshSays(session, s, front);
      assert steps[|steps| - 1] in steps;
    }
  }

  /** Which actions are possible at a later point, while nothing is loaded, selected or done: those the
      case permits, exactly when the last refresh was in time. */
  lemma PossibleAfterRequestError(session: Session, history: seq<Step>, kind: ActionKind, now: int, steps: seq<Step>, other: ActionKind)
    requires Can(session, After(session, INITIAL, history), kind)
    requires Idle(session, Refused(session, history, kind, now), steps)
    ensures var s := Refused(session, history, kind, now);
      && s.lastUpdatedAt.Some? && s.selected.Some?
      && (Can(session, After(session, s, steps), other) <==>
          && Permits(s.selected.value, other, session.roles)
          && LastRefresh(steps).Some? && LastRefresh(steps).value - s.lastUpdatedAt.value <= session.StaleAfter())
  {
    SelectedIsDated(session, history);
    StaleAsLastRefreshSays(session, Refused(session, history, kind, now), steps);
  }

  /** Repainting refreshes: right after a request error the same action is possible again without any
      reload, at the latest when the limit has been reached and not a millisecond later. */
  lemma RepaintForgetsRequestError(session: Session, item: Item, loadedAt: int, repaintedAt: int)
    requires Permits(item, Takeover, session.roles)
    ensures var s := After(session, INITIAL,
        [LoadPage(Some([item]), loadedAt), SelectCase(Some(item), loadedAt), Act(Takeover, RequestError, loadedAt), RefreshStaleness(repaintedAt)]);
      Can(session, s, Takeover) <==> repaintedAt <= loadedAt + session.StaleAfter()
  {
    var history := [LoadPage(Some([item]), loadedAt), SelectCase(Some(item), loadedAt)];
    var steps := history + [Act(Takeover, RequestError, loadedAt), RefreshStaleness(repaintedAt)];
    assert steps == [LoadPage(Some([item]), loadedAt), SelectCase(Some(item), loadedAt), Act(Takeover, RequestError, loadedAt), RefreshStaleness(repaintedAt)];
    AfterOneMore(session, INITIAL, steps, 0);
    AfterOneMore(session, INITIAL, steps, 1);
    AfterOneMore(session, INITIAL, steps, 2);
    AfterOneMore(session, INITIAL, steps, 3);
    assert steps[..4] == steps;
  }

  /** Replacing a case by its update leaves the queue's ids as they were, so views stay free of
      duplicates. */
  lemma ReplaceKeepsIds(items: seq<Item>, updated: Item)
    requires IdsDistinct(items)
    ensures IdsDistinct(ReplaceCase(items, updated))
    ensures forall item | item in items && item.id != updated.id :: item in ReplaceCase(items, updated)
    ensures (exists item | item in items :: item.id == updated.id) ==> updated in ReplaceCase(items, updated)
  {
    var replaced := ReplaceCase(items, updated);
    forall item | item in items ensures (if item.id == updated.id then updated else item) in replaced {
      var i :| 0 <= i < |items| && items[i] == item;
      assert replaced[i] in replaced;
    }
  }
}
