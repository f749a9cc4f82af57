/** HumanSafetyCommandCenterController: the cases an operator has loaded, and what he may do with the
    one he has selected. */
module CommandCenterController {
  import opened Wrappers
  import opened SafetyTransition
  import opened CommandCenter
  import opened CommandCenterSession

  method UniqueCases(items: seq<Item>) returns (unique: seq<Item>)
    ensures unique == Unique(items)
  {
    var seen: set<string> := {};
    unique := [];
    for n := 0 to |items|
      invariant unique == Unique(items[..n])
      invariant forall id :: id in seen <==> HasId(items[..n], id)
    {
      assert items[..n + 1] == items[..n] + [items[n]] && items[..n + 1][..n] == items[..n];
      if items[n].id !in seen {
        seen := seen + {items[n].id};
        unique := unique + [items[n]];
      }
    }
    assert items[..|items|] == items;
  }

  class HumanSafetyCommandCenterController {
    const session: Session
    var phase: ViewPhase
    var items: seq<Item>
    var selected: Option<Item>
    var filter: Filter
    var stale: bool
    var lastUpdatedAt: Option<int>

    constructor (session: Session)
      ensures this.session == session && Current() == INITIAL
    {
      this.session := session;
      phase, items, selected, filter, stale, lastUpdatedAt := Loading, [], None, All, false, None;
    }

    function Current(): State
      reads this
    {
      State(phase, items, selected, filter, stale, lastUpdatedAt)
    }

    /** canTakeover, canEscalate, canReassign and canAuthorizeResolution. */
    predicate Allows(kind: ActionKind)
      reads this
    {
      selected.Some? && Fresh() && Permits(selected.value, kind, session.roles)
    }

    predicate Fresh()
      reads this
    {
      !stale && phase == Ready
    }

    /** The gateway's answer is selected, stands in its place among these cases, and counts as fresh. */
    ghost predicate ShowsAnswer(before: seq<Item>, item: Item, now: int)
      reads this
    {
      && selected == Some(item) && phase == Ready && !stale && lastUpdatedAt == Some(now)
      && |items| == |before| && forall i | 0 <= i < |items| :: items[i] == if before[i].id == item.id then item else before[i]
    }

    /** `page` is None when the gateway fails. */
    method Load(page: Option<seq<Item>>, now: int)
      modifies this
      ensures Current() == Next(session, old(Current()), LoadPage(page, now))
      ensures page.None? ==> Current() == old(Current()).(phase := FailedPhase)
      ensures page.Some? ==>
        && items == page.value && phase == (if page.value == [] then EmptyPage else Ready)
        && filter == old(filter) && !stale && lastUpdatedAt == Some(now)
        && (selected.Some? ==> selected.value in items && old(selected).Some? && selected.value.id == old(selected).value.id)
        && (selected.None? ==> old(selected).None? || forall item | item in items :: item.id != old(selected).value.id)
    {
      phase := Loading;
      if page.None? {
        phase := FailedPhase;
        return;
      }
      selected := if selected.None? then None else FindCase(page.value, selected.value.id);
      phase, items, stale, lastUpdatedAt := if page.value == [] then EmptyPage else Ready, page.value, false, Some(now);
    }

    method Select(answer: Option<Item>, now: int)
      modifies this
      ensures Current() == Next(session, old(Current()), SelectCase(answer, now))
      ensures answer.None? ==> Current() == old(Current()).(phase := FailedPhase)
      ensures answer.Some? ==> ShowsAnswer(old(items), answer.value, now) && filter == old(filter)
    {
      if answer.None? {
        phase := FailedPhase;
        return;
      }
      phase, selected, items, stale, lastUpdatedAt := Ready, answer, ReplaceCase(items, answer.value), false, Some(now);
    }

    method SetFilter(filter: Filter)
      modifies this
      ensures Current() == Next(session, old(Current()), ChooseFilter(filter))
      ensures Current() == old(Current()).(filter := filter)
    {
      this.filter := filter;
    }

    method RefreshStaleness(now: int)
      modifies this
      ensures Current() == Next(session, old(Current()), Step.RefreshStaleness(now))
      ensures Current() == old(Current()).(stale := stale)
      ensures stale <==> lastUpdatedAt.Some? && now > lastUpdatedAt.value + if session.staleAfterMs.Some? then session.staleAfterMs.value else 15_000
    {
      stale := lastUpdatedAt.Some? && now - lastUpdatedAt.value > session.StaleAfter();
    }

    /** One clock reading serves the whole view. */
    method VisibleItems(now: int) returns (view: seq<Item>)
      ensures view == View(items, filter, session.actorId, now)
    {
      var sorted := Sorted(items, now);
      if filter == All {
        return sorted;
      }
      var urgent := StableSort.Filter(sorted, UrgentAt(now));
      var matching := StableSort.Filter(sorted, MatchingAt(filter, session.actorId, now));
      view := UniqueCases(urgent + matching);
    }

    /** takeover, escalate, reassign and authorizeResolution, with the gateway's answer.  A request
        error marks the data as stale, which lasts until they are refreshed, loaded or selected. */
    method Act(kind: ActionKind, answer: Answer, now: int) returns (ok: bool)
      modifies this
      ensures ok <==> old(Can(session, Current(), kind)) && answer.Updated?
      ensures Current() == Next(session, old(Current()), Step.Act(kind, answer, now))
      ensures ok ==> ShowsAnswer(old(items), answer.item, now) && filter == old(filter)
      ensures !ok ==> Current() == old(Current()).(stale := old(stale) || (answer.RequestError? && old(Can(session, Current(), kind))))
    {
      if !Allows(kind) {
        return false;
      }
      match answer {
        case RequestError =>
          stale := true;
          return false;
        case OtherError => return false;
        case Updated(item) =>
          phase, selected, items, stale, lastUpdatedAt := Ready, Some(item), ReplaceCase(items, item), false, Some(now);
          return true;
      }
    }
  }
}
