/** The human safety command center's queue: which cases it shows, and in which order. */
module CommandCenter {
  import opened Wrappers
  import opened SafetyTransition
  import opened StableSort

  datatype DependencyHealth = DependenciesHealthy | DependenciesDegraded | DependenciesUnavailable

  /** Deadlines are None when absent or when they are not timestamps. */
  datatype Item = Item(
    id: string, state: CaseState, severity: Severity, nextDeadlineAt: Option<int>, responseDeadlineAt: Option<int>,
    assignedActorId: Option<string>, openedAt: int, version: int,
    connectivity: Connectivity, evidenceTrusted: bool, dependencies: DependencyHealth)
  {
    predicate Silent() {
      state == NoResponse || state == Unreachable
    }
  }

  datatype DeadlineState = Overdue | Imminent | Active | NoDeadline

  const IMMINENT_WINDOW_MS := 60_000

  function Earliest(a: Option<int>, b: Option<int>): Option<int> {
    if a.None? then b else if b.None? then a else if a.value <= b.value then a else b
  }

  function DeadlineOf(item: Item, now: int): DeadlineState {
    var deadline := Earliest(item.nextDeadlineAt, item.responseDeadlineAt);
    if deadline.None? then NoDeadline
    else if deadline.value - now <= 0 then Overdue
    else if deadline.value - now <= IMMINENT_WINDOW_MS then Imminent
    else Active
  }

  predicate IsUrgent(item: Item, now: int) {
    DeadlineOf(item, now) == Overdue || DeadlineOf(item, now) == Imminent || item.severity == S4 || item.Silent()
  }

  function Priority(item: Item, now: int): int {
    (match DeadlineOf(item, now)
     case Overdue => 10_000
     case Imminent => 8_000
     case _ => 0)
    + (match item.severity
       case S4 => 4_000
       case S3 => 2_000
       case _ => 0)
    + (if item.Silent() then 3_000 else 0)
    + (if item.assignedActorId.None? then 1_000 else 0)
  }

  /** Higher priority first, then the case opened earlier. */
  predicate NotAfter(a: Item, b: Item, now: int) {
    Priority(a, now) > Priority(b, now) || (Priority(a, now) == Priority(b, now) && a.openedAt <= b.openedAt)
  }

  function Order(now: int): (Item, Item) -> bool {
    (a: Item, b: Item) => NotAfter(a, b, now)
  }

  datatype Filter = All | Urgent | Unassigned | MyCases

  predicate Matches(item: Item, filter: Filter, actorId: string, now: int) {
    match filter
    case All => true
    case Urgent => IsUrgent(item, now)
    case Unassigned => item.assignedActorId.None?
    case MyCases => item.assignedActorId == Some(actorId)
  }

  function UrgentAt(now: int): Item -> bool {
    (item: Item) => IsUrgent(item, now)
  }

  function MatchingAt(filter: Filter, actorId: string, now: int): Item -> bool {
    (item: Item) => Matches(item, filter, actorId, now)
  }

  predicate HasId(items: seq<Item>, id: string) {
    exists item | item in items :: item.id == id
  }

  /** The first occurrence of each case id. */
  function Unique(items: seq<Item>): seq<Item> {
    if items == [] then []
    else
      var front, last := items[..|items| - 1], items[|items| - 1];
      if HasId(front, last.id) then Unique(front) else Unique(front) + [last]
  }

  function Sorted(items: seq<Item>, now: int): seq<Item> {
    Sort(items, Order(now))
  }

  function View(items: seq<Item>, filter: Filter, actorId: string, now: int): seq<Item> {
    var sorted := Sorted(items, now);
    if filter == All then sorted
    else Unique(StableSort.Filter(sorted, UrgentAt(now)) + StableSort.Filter(sorted, MatchingAt(filter, actorId, now)))
  }

  ghost predicate IdsDistinct(items: seq<Item>) {
    forall i, j | 0 <= i < j < |items| :: items[i].id != items[j].id
  }

  // ---------- priorities ----------

  /** One of the case's two deadlines is not later than this. */
  ghost predicate DueBy(item: Item, at: int) {
    || (item.nextDeadlineAt.Some? && item.nextDeadlineAt.value <= at)
    || (item.responseDeadlineAt.Some? && item.responseDeadlineAt.value <= at)
  }

  /** Due within a minute, of severity S4, or of a person who does not answer. */
  ghost predicate Pressing(item: Item, now: int) {
    DueBy(item, now + 60_000) || item.severity == S4 || item.state in {NoResponse, Unreachable}
  }

  /** The earlier deadline decides what the deadlines say; a priority adds up what is pressing about a case. */
  lemma PriorityMeans(item: Item, now: int)
    ensures DeadlineOf(item, now) == Overdue <==> DueBy(item, now)
    ensures DeadlineOf(item, now) == Imminent <==> DueBy(item, now + 60_000) && !DueBy(item, now)
    ensures DeadlineOf(item, now) == NoDeadline <==> item.nextDeadlineAt == None && item.responseDeadlineAt == None
    ensures IsUrgent(item, now) <==> Pressing(item, now)
    ensures Priority(item, now) ==
      (if DueBy(item, now) then 10_000 else if DueBy(item, now + 60_000) then 8_000 else 0)
      + (if item.severity == S4 then 4_000 else if item.severity == S3 then 2_000 else 0)
      + (if item.state in {NoResponse, Unreachable} then 3_000 else 0) + (if item.assignedActorId == None then 1_000 else 0)
  {
  }

  /** Urgent cases score at least 3000 and others at most 3000, so no other case ever outranks an
      urgent one; only at exactly 3000 can they tie. */
  lemma UrgentOutranks(item: Item, now: int)
    ensures IsUrgent(item, now) ==> Priority(item, now) >= 3_000
    ensures !IsUrgent(item, now) ==> Priority(item, now) <= 3_000
    ensures IsUrgent(item, now) && Priority(item, now) == 3_000 ==> item.Silent() && item.assignedActorId.Some?
    ensures !IsUrgent(item, now) && Priority(item, now) == 3_000 ==> item.severity == S3 && item.assignedActorId.None?
  {
  }

  lemma OrderIsTotal(now: int)
    ensures TotalPreorder(Order(now))
  {
  }

  // ---------- the shape of a filtered view ----------

  lemma {:induction false} UniqueOfDistinct(items: seq<Item>)
    requires IdsDistinct(items)
    ensures Unique(items) == items
    decreases |items|
  {
    if items != [] {
      var front, last := items[..|items| - 1], items[|items| - 1];
      UniqueOfDistinct(front);
      assert items == front + [last];
      forall item | item in front ensures item.id != last.id {
        var i :| 0 <= i < |front| && front[i] == item;
        assert items[i].id != items[|front|].id;
      }
    }
  }

  lemma UniqueNext(front: seq<Item>, last: Item)
    ensures Unique(front + [last]) == if HasId(front, last.id) then Unique(front) else Unique(front) + [last]
  {
    assert (front + [last])[..|front|] == front;
  }

  function NotIn(first: seq<Item>): Item -> bool {
    (item: Item) => item !in first
  }

  lemma FilterNext(front: seq<Item>, last: Item, keep: Item -> bool)
    ensures StableSort.Filter(front + [last], keep) == StableSort.Filter(front, keep) + if keep(last) then [last] else []
  {
    assert (front + [last])[..|front|] == front;
  }

  lemma JoinOne(first: seq<Item>, kept: seq<Item>, last: Item, seen: bool)
    ensures (if seen then first + kept else (first + kept) + [last]) == first + (kept + if !seen then [last] else [])
  {
    if seen {
      assert kept + [] == kept;
    } else {
      assert (first + kept) + [last] == first + (kept + [last]);
    }
  }

  lemma UniqueAppendOne(first: seq<Item>, front: seq<Item>, last: Item)
    requires Unique(first + front) == first + StableSort.Filter(front, NotIn(first))
    requires HasId(first + front, last.id) <==> last in first
    ensures Unique((first + front) + [last]) == first + StableSort.Filter(front + [last], NotIn(first))
  {
    UniqueNext(first + front, last);
    FilterNext(front, last, NotIn(first));
    JoinOne(first, StableSort.Filter(front, NotIn(first)), last, last in first);
  }

  lemma FrontKeepsIds(items: seq<Item>)
    requires items != [] && IdsDistinct(items)
    ensures IdsDistinct(items[..|items| - 1])
  {
  }

  /** Appending cases to distinct ones keeps those that are new. */
  lemma {:induction false} UniqueAppend(first: seq<Item>, more: seq<Item>)
    requires IdsDistinct(first) && IdsDistinct(more)
    requires forall x, y | x in first && y in more && x.id == y.id :: x == y
    ensures Unique(first + more) == first + StableSort.Filter(more, NotIn(first))
    decreases |more|
  {
    if more == [] {
      assert first + more == first;
      UniqueOfDistinct(first);
    } else {
      var front, last := more[..|more| - 1], more[|more| - 1];
      assert more == front + [last] && first + more == (first + front) + [last];
      FrontKeepsIds(more);
      LastIsNew(more);
      UniqueAppend(first, front);
      SeenExactlyWhenIn(first, front, last);
      UniqueAppendOne(first, front, last);
    }
  }

  lemma SeenExactlyWhenIn(first: seq<Item>, front: seq<Item>, last: Item)
    requires (forall x | x in first && x.id == last.id :: x == last) && forall item | item in front :: item.id != last.id
    ensures HasId(first + front, last.id) <==> last in first
  {
    if last in first {
      assert last in first + front;
    }
  }

  lemma LastIsNew(items: seq<Item>)
    requires items != [] && IdsDistinct(items)
    ensures forall item | item in items[..|items| - 1] :: item.id != items[|items| - 1].id
  {
    forall item | item in items[..|items| - 1] ensures item.id != items[|items| - 1].id {
      var i :| 0 <= i < |items| - 1 && items[i] == item;
    }
  }

  lemma {:induction false} FilterKeepsIds(items: seq<Item>, keep: Item -> bool)
    requires IdsDistinct(items)
    ensures IdsDistinct(StableSort.Filter(items, keep))
  {
    if items != [] {
      var front, last := items[..|items| - 1], items[|items| - 1];
      FilterKeepsIds(front, keep);
      forall item | item in StableSort.Filter(front, keep) ensures item.id != last.id {
        assert item in front;
      }
    }
  }

  lemma SortKeepsIds(items: seq<Item>, now: int)
    requires IdsDistinct(items)
    ensures IdsDistinct(Sorted(items, now)) && forall item :: item in Sorted(items, now) <==> item in items
  {
    var sorted := Sorted(items, now);
    SortPermutes(items, Order(now));
    DistinctPermuted(items, sorted);
    forall i, j | 0 <= i < j < |sorted| ensures sorted[i].id != sorted[j].id {
      assert sorted[i] in items && sorted[j] in items && sorted[i] != sorted[j];
      var k :| 0 <= k < |items| && items[k] == sorted[i];
      var l :| 0 <= l < |items| && items[l] == sorted[j];
      assert k != l;
    }
  }

  lemma SameIdSameItem(items: seq<Item>, x: Item, y: Item)
    requires IdsDistinct(items) && x in items && y in items && x.id == y.id
    ensures x == y
  {
    var i :| 0 <= i < |items| && items[i] == x;
    var j :| 0 <= j < |items| && items[j] == y;
    if i < j {
    } else if j < i {
    }
  }

  /** The matching cases that are not urgent, in order. */
  function Rest(items: seq<Item>, filter: Filter, actorId: string, now: int): seq<Item> {
    StableSort.Filter(StableSort.Filter(Sorted(items, now), MatchingAt(filter, actorId, now)),
                      NotIn(StableSort.Filter(Sorted(items, now), UrgentAt(now))))
  }

  lemma ViewSplits(items: seq<Item>, filter: Filter, actorId: string, now: int)
    requires IdsDistinct(items) && filter != All
    ensures View(items, filter, actorId, now) == StableSort.Filter(Sorted(items, now), UrgentAt(now)) + Rest(items, filter, actorId, now)
    ensures forall item | item in Rest(items, filter, actorId, now) :: item in items && !IsUrgent(item, now) && Matches(item, filter, actorId, now)
  {
    var sorted := Sorted(items, now);
    SortKeepsIds(items, now);
    var urgent, matching := StableSort.Filter(sorted, UrgentAt(now)), StableSort.Filter(sorted, MatchingAt(filter, actorId, now));
    FilterKeepsIds(sorted, UrgentAt(now));
    FilterKeepsIds(sorted, MatchingAt(filter, actorId, now));
    forall x, y | x in urgent && y in matching && x.id == y.id ensures x == y {
      SameIdSameItem(sorted, x, y);
    }
    UniqueAppend(urgent, matching);
  }

  lemma PartsHold(items: seq<Item>, filter: Filter, actorId: string, now: int, item: Item)
    requires IdsDistinct(items) && item in items
    ensures IsUrgent(item, now) ==> item in StableSort.Filter(Sorted(items, now), UrgentAt(now))
    ensures !IsUrgent(item, now) && Matches(item, filter, actorId, now) ==> item in Rest(items, filter, actorId, now)
  {
    SortKeepsIds(items, now);
  }

  // ---------- what a view shows ----------

  /** The case is one that the filter asks for. */
  ghost predicate AskedFor(item: Item, filter: Filter, actorId: string) {
    filter == All || (filter == Unassigned && item.assignedActorId == None) || (filter == MyCases && item.assignedActorId == Some(actorId))
  }

  /** A view shows every pressing case and every one that its filter asks for, and nothing else. */
  lemma ViewIsComplete(items: seq<Item>, filter: Filter, actorId: string, now: int)
    requires IdsDistinct(items)
    ensures forall item :: item in View(items, filter, actorId, now) <==> item in items && (Pressing(item, now) || AskedFor(item, filter, actorId))
  {
    SortKeepsIds(items, now);
    forall item ensures IsUrgent(item, now) || Matches(item, filter, actorId, now) <==> Pressing(item, now) || AskedFor(item, filter, actorId) {
      PriorityMeans(item, now);
    }
    if filter != All {
      ViewSplits(items, filter, actorId, now);
    }
  }

  /** No case is shown twice. */
  lemma ViewHasNoDuplicates(items: seq<Item>, filter: Filter, actorId: string, now: int)
    requires IdsDistinct(items)
    ensures IdsDistinct(View(items, filter, actorId, now))
  {
    SortKeepsIds(items, now);
    if filter != All {
      UniqueHasNoDuplicates(StableSort.Filter(Sorted(items, now), UrgentAt(now)) + StableSort.Filter(Sorted(items, now), MatchingAt(filter, actorId, now)));
    }
  }

  lemma {:induction false} UniqueHasNoDuplicates(items: seq<Item>)
    ensures IdsDistinct(Unique(items))
    ensures forall item | item in Unique(items) :: item in items
    decreases |items|
  {
    if items != [] {
      UniqueHasNoDuplicates(items[..|items| - 1]);
    }
  }

  // ---------- the order of a view ----------

  lemma {:induction false} FilterKeepsOrder(items: seq<Item>, keep: Item -> bool, now: int)
    requires StableSort.Sorted(items, Order(now))
    ensures StableSort.Sorted(StableSort.Filter(items, keep), Order(now))
  {
    if items != [] {
      var front, last := items[..|items| - 1], items[|items| - 1];
      FilterKeepsOrder(front, keep, now);
      forall item | item in StableSort.Filter(front, keep) ensures Order(now)(item, last) {
        assert item in front;
        var i :| 0 <= i < |front| && front[i] == item;
        assert Order(now)(items[i], items[|items| - 1]);
      }
    }
  }

  lemma PartsAreSorted(items: seq<Item>, filter: Filter, actorId: string, now: int)
    ensures StableSort.Sorted(Sorted(items, now), Order(now))
    ensures StableSort.Sorted(StableSort.Filter(Sorted(items, now), UrgentAt(now)), Order(now))
    ensures StableSort.Sorted(Rest(items, filter, actorId, now), Order(now))
  {
    OrderIsTotal(now);
    SortSorts(items, Order(now));
    FilterKeepsOrder(Sorted(items, now), UrgentAt(now), now);
    FilterKeepsOrder(Sorted(items, now), MatchingAt(filter, actorId, now), now);
    FilterKeepsOrder(StableSort.Filter(Sorted(items, now), MatchingAt(filter, actorId, now)),
                     NotIn(StableSort.Filter(Sorted(items, now), UrgentAt(now))), now);
  }

  /** Whatever the filter, priorities never rise down the view. */
  lemma ViewIsByPriority(items: seq<Item>, filter: Filter, actorId: string, now: int, i: nat, j: nat)
    requires IdsDistinct(items) && i < j < |View(items, filter, actorId, now)|
    ensures Priority(View(items, filter, actorId, now)[i], now) >= Priority(View(items, filter, actorId, now)[j], now)
  {
    PartsAreSorted(items, filter, actorId, now);
    var view := View(items, filter, actorId, now);
    if filter == All {
      assert Order(now)(view[i], view[j]);
    } else {
      ViewSplits(items, filter, actorId, now);
      var urgent, rest := StableSort.Filter(Sorted(items, now), UrgentAt(now)), Rest(items, filter, actorId, now);
      TwoPartsByPriority(urgent, rest, now, i, j);
    }
  }

  lemma TwoPartsByPriority(urgent: seq<Item>, rest: seq<Item>, now: int, i: nat, j: nat)
    requires StableSort.Sorted(urgent, Order(now)) && StableSort.Sorted(rest, Order(now)) && i < j < |urgent + rest|
    requires (forall item | item in urgent :: IsUrgent(item, now)) && (forall item | item in rest :: !IsUrgent(item, now))
    ensures Priority((urgent + rest)[i], now) >= Priority((urgent + rest)[j], now)
  {
    UrgentOutranks((urgent + rest)[i], now);
    UrgentOutranks((urgent + rest)[j], now);
    if j < |urgent| {
      assert Order(now)(urgent[i], urgent[j]);
    } else if i >= |urgent| {
      assert Order(now)(rest[i - |urgent|], rest[j - |urgent|]);
    }
  }

  /** Of two shown cases with the same priority that are both pressing, or both not, the one opened earlier comes
      first; without a filter this holds of any two. */
  lemma TiesGoToTheOlder(items: seq<Item>, filter: Filter, actorId: string, now: int, i: nat, j: nat)
    requires IdsDistinct(items) && i < j < |View(items, filter, actorId, now)|
    requires var view := View(items, filter, actorId, now);
      && Priority(view[i], now) == Priority(view[j], now)
      && (filter == All || (Pressing(view[i], now) <==> Pressing(view[j], now)))
    ensures View(items, filter, actorId, now)[i].openedAt <= View(items, filter, actorId, now)[j].openedAt
  {
    PartsAreSorted(items, filter, actorId, now);
    var view := View(items, filter, actorId, now);
    if filter == All {
      assert Order(now)(view[i], view[j]);
    } else {
      ViewSplits(items, filter, actorId, now);
      var urgent, rest := StableSort.Filter(Sorted(items, now), UrgentAt(now)), Rest(items, filter, actorId, now);
      PriorityMeans(view[i], now);
      PriorityMeans(view[j], now);
      TwoPartsByAge(urgent, rest, now, i, j);
    }
  }

  lemma TwoPartsByAge(urgent: seq<Item>, rest: seq<Item>, now: int, i: nat, j: nat)
    requires StableSort.Sorted(urgent, Order(now)) && StableSort.Sorted(rest, Order(now)) && i < j < |urgent + rest|
    requires (forall item | item in urgent :: IsUrgent(item, now)) && (forall item | item in rest :: !IsUrgent(item, now))
    requires Priority((urgent + rest)[i], now) == Priority((urgent + rest)[j], now)
    requires IsUrgent((urgent + rest)[i], now) <==> IsUrgent((urgent + rest)[j], now)
    ensures (urgent + rest)[i].openedAt <= (urgent + rest)[j].openedAt
  {
    if j < |urgent| {
      assert Order(now)(urgent[i], urgent[j]);
    } else if i >= |urgent| {
      assert Order(now)(rest[i - |urgent|], rest[j - |urgent|]);
    }
  }

  /** A shown case that is not urgent but was opened before an urgent one of the same priority. */
  ghost predicate Overtaken(items: seq<Item>, filter: Filter, actorId: string, now: int) {
    exists x, y | x in items && y in items ::
      && IsUrgent(x, now) && !IsUrgent(y, now) && Matches(y, filter, actorId, now)
      && Priority(x, now) == Priority(y, now) && y.openedAt < x.openedAt
  }

  /** A filtered view is in the queue's full order, priority and then age, exactly when no case that
      is not urgent ties with an urgent one that was opened later. */
  lemma ViewOrderIsFullExactlyWhen(items: seq<Item>, filter: Filter, actorId: string, now: int)
    requires IdsDistinct(items) && filter != All
    ensures StableSort.Sorted(View(items, filter, actorId, now), Order(now)) <==> !Overtaken(items, filter, actorId, now)
  {
    PartsAreSorted(items, filter, actorId, now);
    ViewSplits(items, filter, actorId, now);
    SortKeepsIds(items, now);
    var urgent, rest := StableSort.Filter(Sorted(items, now), UrgentAt(now)), Rest(items, filter, actorId, now);
    if Overtaken(items, filter, actorId, now) {
      var x, y :| x in items && y in items && IsUrgent(x, now) && !IsUrgent(y, now) && Matches(y, filter, actorId, now)
        && Priority(x, now) == Priority(y, now) && y.openedAt < x.openedAt;
      PartsHold(items, filter, actorId, now, x);
      PartsHold(items, filter, actorId, now, y);
      OvertakenBreaksOrder(urgent, rest, x, y, now);
    } else {
      forall x, y | x in urgent && y in rest ensures NotAfter(x, y, now) {
        UrgentOutranks(x, now);
        UrgentOutranks(y, now);
      }
      JoinSorted(urgent, rest, now);
    }
  }

  function Case(id: string, state: CaseState, severity: Severity, assignee: Option<string>, openedAt: int): Item {
    Item(id, state, severity, None, None, assignee, openedAt, 1, Healthy, true, DependenciesHealthy)
  }

  /** Such a view: a silent case that is assigned comes before an older S3 case that is not, though both
      score 3000. */
  lemma OvertakenView(now: int)
    ensures var items := [Case("a", NoResponse, S0, Some("operator"), 2), Case("b", Monitored, S3, None, 1)];
      IdsDistinct(items) && !StableSort.Sorted(View(items, Unassigned, "operator", now), Order(now))
  {
    var x, y := Case("a", NoResponse, S0, Some("operator"), 2), Case("b", Monitored, S3, None, 1);
    assert x.id[0] != y.id[0];
    assert x in [x, y] && y in [x, y];
    ViewOrderIsFullExactlyWhen([x, y], Unassigned, "operator", now);
  }

  lemma OvertakenBreaksOrder(urgent: seq<Item>, rest: seq<Item>, x: Item, y: Item, now: int)
    requires x in urgent && y in rest && !NotAfter(x, y, now)
    ensures !StableSort.Sorted(urgent + rest, Order(now))
  {
    var i :| 0 <= i < |urgent| && urgent[i] == x;
    var j :| 0 <= j < |rest| && rest[j] == y;
    assert (urgent + rest)[i] == x && (urgent + rest)[|urgent| + j] == y;
    assert !Order(now)((urgent + rest)[i], (urgent + rest)[|urgent| + j]);
  }

  lemma JoinSorted(a: seq<Item>, b: seq<Item>, now: int)
    requires StableSort.Sorted(a, Order(now)) && StableSort.Sorted(b, Order(now)) && forall x, y | x in a && y in b :: NotAfter(x, y, now)
    ensures StableSort.Sorted(a + b, Order(now))
  {
    var all := a + b;
    forall i, j | 0 <= i < j < |all| ensures Order(now)(all[i], all[j]) {
      if j < |a| {
        assert Order(now)(a[i], a[j]);
      } else if i >= |a| {
        assert Order(now)(b[i - |a|], b[j - |a|]);
      } else {
        assert all[i] in a && all[j] in b;
      }
    }
  }
}
