/** The table outbox_events, the statements that change it, and what every run of them keeps.

    A row id stands for a UUID (PostgreSQL orders UUIDs as numbers) and time is an integer
    number of milliseconds.  Each SQL statement is one atomic step on the map of rows. */
module OutboxTable {
  import opened Wrappers
  import opened SetBasics

  type RowId = nat
  type WorkerId = string

  datatype AggregateType = RoadEvent | OtherAggregate(name: string)

  datatype Row = Row(
    aggregateType: AggregateType,
    tenantId: Option<string>,
    purpose: Option<string>,
    occurredAt: int,
    retryCount: nat,
    nextAttemptAt: int,
    lockedBy: Option<WorkerId>,
    lockedUntil: Option<int>,
    publishedAt: Option<int>,
    deadLetteredAt: Option<int>,
    lastError: Option<string>)
  {
    predicate Settled() {
      publishedAt.Some? || deadLetteredAt.Some?
    }

    predicate Scoped() {
      aggregateType.RoadEvent? ==> tenantId.Some? && purpose.Some?
    }

    predicate Claimable(now: int) {
      && !Settled()
      && nextAttemptAt <= now
      && (lockedUntil.None? || lockedUntil.value < now)
      && Scoped()
    }

    predicate OwnedBy(worker: WorkerId) {
      lockedBy == Some(worker) && !Settled()
    }
  }

  type Table = map<RowId, Row>

  /** A history variable: one grant of a row to a worker.  `closedAt` is the time at which the
      holder marked the row; a lease that was never closed ran out and was superseded. */
  datatype Lease = Lease(worker: WorkerId, from: int, until: int, closedAt: Option<int>)
  {
    predicate Covers(t: int) {
      from <= t <= until && (closedAt.Some? ==> t < closedAt.value)
    }
  }

  datatype State = State(rows: Table, now: int, leases: map<RowId, seq<Lease>>)

  datatype Statement =
    | Tick(elapsed: nat)
    | Insert(newId: RowId, aggregateType: AggregateType, tenantId: Option<string>, purpose: Option<string>, occurredAt: int, readyAt: int)
    | Claim(worker: WorkerId, limit: nat, duration: nat, skipped: set<RowId>)
    | MarkPublished(id: RowId, worker: WorkerId, publishedAt: int)
    | MarkFailed(id: RowId, worker: WorkerId, error: string, nextAttemptAt: int, deadLetteredAt: Option<int>)

  // ---------- the claim query ----------

  /** ORDER BY occurred_at, id */
  predicate Before(rows: Table, a: RowId, b: RowId)
    requires a in rows && b in rows
  {
    rows[a].occurredAt < rows[b].occurredAt || (rows[a].occurredAt == rows[b].occurredAt && a < b)
  }

  /** The WHERE clause; `skipped` are the rows other transactions have locked (SKIP LOCKED). */
  function Candidates(rows: Table, now: int, skipped: set<RowId>): set<RowId> {
    set id | id in rows && id !in skipped && rows[id].Claimable(now)
  }

  function Ahead(rows: Table, ids: set<RowId>, id: RowId): set<RowId>
    requires id in rows && ids <= rows.Keys
  {
    set other | other in ids && Before(rows, other, id)
  }

  /** LIMIT: the ids that fewer than `limit` others precede. */
  function First(rows: Table, ids: set<RowId>, limit: nat): set<RowId>
    requires ids <= rows.Keys
  {
    set id | id in ids && |Ahead(rows, ids, id)| < limit
  }

  function Claimed(rows: Table, now: int, limit: nat, skipped: set<RowId>): set<RowId> {
    First(rows, Candidates(rows, now, skipped), limit)
  }

  // ---------- the statements ----------

  function ClaimRows(rows: Table, now: int, worker: WorkerId, limit: nat, duration: nat, skipped: set<RowId>): Table {
    LockRows(rows, Claimed(rows, now, limit, skipped), worker, now + duration)
  }

  function LockRows(rows: Table, taken: set<RowId>, worker: WorkerId, until: int): Table {
    map id | id in rows :: if id in taken then rows[id].(lockedBy := Some(worker), lockedUntil := Some(until)) else rows[id]
  }

  predicate Owns(rows: Table, id: RowId, worker: WorkerId) {
    id in rows && rows[id].OwnedBy(worker)
  }

  function PublishRow(rows: Table, id: RowId, worker: WorkerId, publishedAt: int): Table {
    if !Owns(rows, id, worker) then rows
    else rows[id := rows[id].(publishedAt := Some(publishedAt), lockedBy := None, lockedUntil := None, lastError := None)]
  }

  function FailRow(rows: Table, id: RowId, worker: WorkerId, error: string, nextAttemptAt: int, deadLetteredAt: Option<int>): Table {
    if !Owns(rows, id, worker) then rows
    else rows[id := rows[id].(retryCount := rows[id].retryCount + 1, nextAttemptAt := nextAttemptAt,
                              deadLetteredAt := deadLetteredAt, lastError := Some(error),
                              lockedBy := None, lockedUntil := None)]
  }

  function NewRow(s: Statement): Row
    requires s.Insert?
  {
    Row(s.aggregateType, s.tenantId, s.purpose, s.occurredAt, 0, s.readyAt, None, None, None, None, None)
  }

  function Grant(leases: map<RowId, seq<Lease>>, taken: set<RowId>, lease: Lease): map<RowId, seq<Lease>> {
    map id | id in leases :: if id in taken then leases[id] + [lease] else leases[id]
  }

  function CloseLast(leases: seq<Lease>, now: int): seq<Lease> {
    if leases == [] then leases
    else leases[..|leases| - 1] + [leases[|leases| - 1].(closedAt := Some(now))]
  }

  function Close(leases: map<RowId, seq<Lease>>, id: RowId, now: int): map<RowId, seq<Lease>> {
    if id in leases then leases[id := CloseLast(leases[id], now)] else leases
  }

  /** These rows are locked for the worker and begin a lease. */
  function Granted(s: State, taken: set<RowId>, worker: WorkerId, duration: nat): State {
    s.(rows := LockRows(s.rows, taken, worker, s.now + duration), leases := Grant(s.leases, taken, Lease(worker, s.now, s.now + duration, None)))
  }

  function Apply(s: State, statement: Statement): State {
    match statement
    case Tick(elapsed) => s.(now := s.now + elapsed)
    case Insert(id, _, _, _, _, _) =>
      if id in s.rows then s else s.(rows := s.rows[id := NewRow(statement)], leases := s.leases[id := []])
    case Claim(worker, limit, duration, skipped) => Granted(s, Claimed(s.rows, s.now, limit, skipped), worker, duration)
    case MarkPublished(id, worker, publishedAt) =>
      if !Owns(s.rows, id, worker) then s
      else s.(rows := PublishRow(s.rows, id, worker, publishedAt), leases := Close(s.leases, id, s.now))
    case MarkFailed(id, worker, error, nextAttemptAt, deadLetteredAt) =>
      if !Owns(s.rows, id, worker) then s
      else s.(rows := FailRow(s.rows, id, worker, error, nextAttemptAt, deadLetteredAt), leases := Close(s.leases, id, s.now))
  }

  function Run(s: State, statements: seq<Statement>): State
    decreases |statements|
  {
    if statements == [] then s else Run(Apply(s, statements[0]), statements[1..])
  }

  function Empty(now: int): State {
    State(map[], now, map[])
  }

  // ---------- the claim query returns the oldest claimable rows ----------

  lemma {:induction false} LatestExists(rows: Table, ids: set<RowId>) returns (latest: RowId)
    requires ids != {} && ids <= rows.Keys
    ensures latest in ids && forall other | other in ids && other != latest :: Before(rows, other, latest)
  {
    var some :| some in ids;
    if ids == {some} {
      latest := some;
    } else {
      var rest := LatestExists(rows, ids - {some});
      latest := if Before(rows, rest, some) then some else rest;
      forall other | other in ids && other != latest ensures Before(rows, other, latest) {
        assert other == some || other == rest || Before(rows, other, rest);
      }
    }
  }

  /** LIMIT n keeps min(n, available) rows. */
  lemma {:induction false} FirstSize(rows: Table, ids: set<RowId>, limit: nat)
    requires ids <= rows.Keys
    ensures |First(rows, ids, limit)| == if |ids| < limit then |ids| else limit
    decreases |ids|
  {
    if ids == {} {
      assert First(rows, ids, limit) == {};
    } else {
      var latest := LatestExists(rows, ids);
      var rest := ids - {latest};
      FirstSize(rows, rest, limit);
      assert Ahead(rows, ids, latest) == rest;
      forall id | id in rest ensures Ahead(rows, ids, id) == Ahead(rows, rest, id) {}
      if |rest| < limit {
        assert First(rows, ids, limit) == First(rows, rest, limit) + {latest};
      } else {
        assert First(rows, ids, limit) == First(rows, rest, limit);
      }
    }
  }

  /** A row that is due, not settled, not under a running lease, and scoped if it is a road event's. */
  ghost predicate Due(row: Row, now: int) {
    && row.publishedAt == None && row.deadLetteredAt == None
    && row.nextAttemptAt <= now
    && (row.lockedUntil == None || row.lockedUntil.value < now)
    && !(row.aggregateType == RoadEvent && (row.tenantId == None || row.purpose == None))
  }

  /** A claim takes only due, unskipped rows, at most `limit`, and no due row left behind is older than a
      row taken, or as old with a smaller id; when fewer than `limit` are taken none is left behind. */
  lemma ClaimTakesOldest(rows: Table, now: int, limit: nat, skipped: set<RowId>)
    ensures var taken := Claimed(rows, now, limit, skipped);
      && (forall id | id in taken :: id in rows && id !in skipped && Due(rows[id], now))
      && |taken| <= limit
      && (forall id, left | id in taken && left in rows && left !in taken && left !in skipped && Due(rows[left], now) ::
            rows[id].occurredAt <= rows[left].occurredAt && (rows[id].occurredAt == rows[left].occurredAt ==> id < left))
      && (|taken| < limit ==> forall id | id in rows && id !in skipped && Due(rows[id], now) :: id in taken)
  {
    var ids := Candidates(rows, now, skipped);
    var taken := Claimed(rows, now, limit, skipped);
    FirstSize(rows, ids, limit);
    assert taken <= ids;
    assert forall id | id in rows && id !in skipped && Due(rows[id], now) :: id in ids;
    forall id, left | id in taken && left in ids - taken
      ensures rows[id].occurredAt <= rows[left].occurredAt && (rows[id].occurredAt == rows[left].occurredAt ==> id < left)
    {
      if !Before(rows, id, left) {
        assert Ahead(rows, ids, left) <= Ahead(rows, ids, id);
        SubsetSize(Ahead(rows, ids, left), Ahead(rows, ids, id));
      }
    }
    if |taken| < limit {
      SubsetSize(taken, ids);
    }
  }

  // ---------- what every run keeps ----------

  /** Successive leases of one row: each ends before the next begins. */
  ghost predicate Chained(leases: seq<Lease>, now: int) {
    && (forall i | 0 <= i < |leases| :: leases[i].from <= now && (leases[i].closedAt.Some? ==> leases[i].closedAt.value <= now))
    && (forall i, j | 0 <= i < j < |leases| ::
          if leases[i].closedAt.Some? then leases[i].closedAt.value <= leases[j].from else leases[i].until < leases[j].from)
  }

  ghost predicate HeldBy(leases: seq<Lease>, worker: WorkerId) {
    leases != [] && leases[|leases| - 1].worker == worker && leases[|leases| - 1].closedAt.None?
  }

  /** The lock columns of a row say what its last lease says. */
  ghost predicate RowAgrees(row: Row, leases: seq<Lease>) {
    && (row.lockedBy.Some? <==> row.lockedUntil.Some?)
    && (row.publishedAt.None? || row.deadLetteredAt.None?)
    && (row.Settled() ==> row.lockedBy.None?)
    && (row.lockedBy.Some? ==> HeldBy(leases, row.lockedBy.value) && leases[|leases| - 1].until == row.lockedUntil.value)
    && (row.lockedBy.None? ==> leases == [] || leases[|leases| - 1].closedAt.Some?)
    && (leases != [] ==> row.Scoped())
  }

  ghost predicate RowInv(row: Row, leases: seq<Lease>, now: int) {
    Chained(leases, now) && RowAgrees(row, leases)
  }

  ghost predicate Inv(s: State) {
    && s.rows.Keys == s.leases.Keys
    && forall id | id in s.rows :: RowInv(s.rows[id], s.leases[id], s.now)
  }

  /** Granting a claimable row a lease: its last lease has been closed or has run out. */
  lemma GrantKeepsRow(row: Row, leases: seq<Lease>, now: int, worker: WorkerId, duration: nat)
    requires RowInv(row, leases, now) && row.Claimable(now)
    ensures RowInv(row.(lockedBy := Some(worker), lockedUntil := Some(now + duration)), leases + [Lease(worker, now, now + duration, None)], now)
  {
    var longer := leases + [Lease(worker, now, now + duration, None)];
    forall i, j | 0 <= i < j < |longer|
      ensures if longer[i].closedAt.Some? then longer[i].closedAt.value <= longer[j].from else longer[i].until < longer[j].from
    {
      if j == |leases| && i < |leases| - 1 {
        assert if leases[i].closedAt.Some? then leases[i].closedAt.value <= leases[|leases| - 1].from else leases[i].until < leases[|leases| - 1].from;
      }
    }
  }

  lemma ClaimKeepsInv(s: State, statement: Statement)
    requires Inv(s) && statement.Claim?
    ensures Inv(Apply(s, statement))
  {
    ClaimTakesOldest(s.rows, s.now, statement.limit, statement.skipped);
    GrantsKeepInv(s, Claimed(s.rows, s.now, statement.limit, statement.skipped), statement.worker, statement.duration);
  }

  lemma GrantKeepsRowOf(s: State, taken: set<RowId>, worker: WorkerId, duration: nat, id: RowId)
    requires s.rows.Keys == s.leases.Keys && id in s.rows && RowInv(s.rows[id], s.leases[id], s.now)
    requires id in taken ==> s.rows[id].Claimable(s.now)
    ensures var next := Granted(s, taken, worker, duration); RowInv(next.rows[id], next.leases[id], next.now)
  {
    if id in taken {
      GrantKeepsRow(s.rows[id], s.leases[id], s.now, worker, duration);
    }
  }

  lemma GrantsKeepInv(s: State, taken: set<RowId>, worker: WorkerId, duration: nat)
    requires Inv(s) && taken <= s.rows.Keys && forall id | id in taken :: s.rows[id].Claimable(s.now)
    ensures Inv(Granted(s, taken, worker, duration))
  {
    var next := Granted(s, taken, worker, duration);
    forall id | id in next.rows ensures RowInv(next.rows[id], next.leases[id], next.now) {
      GrantKeepsRowOf(s, taken, worker, duration, id);
    }
  }

  lemma ClosedChain(leases: seq<Lease>, now: int)
    requires Chained(leases, now)
    ensures Chained(CloseLast(leases, now), now)
  {
  }

  lemma MarkKeepsInv(s: State, mark: Statement)
    requires Inv(s) && (mark.MarkPublished? || mark.MarkFailed?)
    ensures Inv(Apply(s, mark))
  {
    if Owns(s.rows, mark.id, mark.worker) {
      var next := Apply(s, mark);
      assert RowAgrees(s.rows[mark.id], s.leases[mark.id]);
      ClosedChain(s.leases[mark.id], s.now);
      assert RowAgrees(next.rows[mark.id], next.leases[mark.id]);
      forall id | id in next.rows && id != mark.id
        ensures Chained(next.leases[id], next.now) && RowAgrees(next.rows[id], next.leases[id])
      {
        assert next.rows[id] == s.rows[id] && next.leases[id] == s.leases[id];
      }
    }
  }

  lemma StepKeepsInv(s: State, statement: Statement)
    requires Inv(s)
    ensures Inv(Apply(s, statement))
  {
    match statement
    case Tick(_) =>
      forall id | id in s.rows ensures Chained(s.leases[id], Apply(s, statement).now) {
        assert Chained(s.leases[id], s.now);
      }
    case Insert(_, _, _, _, _, _) =>
    case Claim(_, _, _, _) => ClaimKeepsInv(s, statement);
    case MarkPublished(_, _, _) => MarkKeepsInv(s, statement);
    case MarkFailed(_, _, _, _, _) => MarkKeepsInv(s, statement);
  }

  lemma {:induction false} RunKeepsInv(s: State, statements: seq<Statement>)
    requires Inv(s)
    ensures Inv(Run(s, statements))
    decreases |statements|
  {
    if statements != [] {
      StepKeepsInv(s, statements[0]);
      RunKeepsInv(Apply(s, statements[0]), statements[1..]);
    }
  }

  /** In every interleaving of statements by any workers, two leases of one row are never in
      force at the same instant. */
  lemma LeasesNeverOverlap(start: int, statements: seq<Statement>, id: RowId, i: nat, j: nat, t: int)
    requires var s := Run(Empty(start), statements); id in s.leases && i < j < |s.leases[id]|
    ensures var leases := Run(Empty(start), statements).leases[id]; !(leases[i].Covers(t) && leases[j].Covers(t))
  {
    RunKeepsInv(Empty(start), statements);
    var s := Run(Empty(start), statements);
    assert Chained(s.leases[id], s.now);
  }

  /** A mark changes its row exactly when the row's latest lease was granted to the caller and
      has not been closed; otherwise nothing changes.  The lease may have run out: what takes
      the right away is a later grant, not the clock. */
  lemma MarkNeedsLatestLease(start: int, statements: seq<Statement>, mark: Statement)
    requires mark.MarkPublished? || mark.MarkFailed?
    ensures var s := Run(Empty(start), statements);
      && (Apply(s, mark) != s <==> mark.id in s.leases && HeldBy(s.leases[mark.id], mark.worker))
  {
    var s := Run(Empty(start), statements);
    RunKeepsInv(Empty(start), statements);
    var next := Apply(s, mark);
    if mark.id in s.rows {
      assert RowAgrees(s.rows[mark.id], s.leases[mark.id]);
      if Owns(s.rows, mark.id, mark.worker) {
        assert next.rows[mark.id].lockedBy == None;
        assert next.rows[mark.id] != s.rows[mark.id];
      }
    }
  }

  /** A worker whose row was granted to another worker since can no longer change it. */
  lemma ReclaimedRowIsOutOfReach(start: int, statements: seq<Statement>, mark: Statement, last: nat)
    requires mark.MarkPublished? || mark.MarkFailed?
    requires var s := Run(Empty(start), statements);
      && mark.id in s.leases && last < |s.leases[mark.id]|
      && s.leases[mark.id][last].worker != mark.worker
      && forall k | last < k < |s.leases[mark.id]| :: s.leases[mark.id][k].worker != mark.worker
    ensures var s := Run(Empty(start), statements); Apply(s, mark) == s
  {
    MarkNeedsLatestLease(start, statements, mark);
  }

  /** Once published or dead-lettered, a row is never changed again by any later run. */
  lemma {:induction false} SettledRowsAreFrozen(s: State, statements: seq<Statement>, id: RowId)
    requires id in s.rows && s.rows[id].Settled()
    ensures id in Run(s, statements).rows && Run(s, statements).rows[id] == s.rows[id]
    decreases |statements|
  {
    if statements != [] {
      SettledRowsAreFrozen(Apply(s, statements[0]), statements[1..], id);
    }
  }

  /** No run sets both published_at and dead_lettered_at on a row. */
  lemma NeverBothTerminal(start: int, statements: seq<Statement>, id: RowId)
    requires id in Run(Empty(start), statements).rows
    ensures var row := Run(Empty(start), statements).rows[id]; !(row.publishedAt.Some? && row.deadLetteredAt.Some?)
  {
    RunKeepsInv(Empty(start), statements);
    var s := Run(Empty(start), statements);
    assert RowAgrees(s.rows[id], s.leases[id]);
  }
}
