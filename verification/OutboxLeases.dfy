/** The lease intervals as granted.  A holder that gives its row back early can let the next interval
    begin inside its own; this says exactly when. */
module OutboxLeases {
  import opened Wrappers
  import opened OutboxTable

  /** The mark puts the row back for a retry that may begin before the lease has run out. */
  predicate RetriesWithin(mark: Statement, until: int, now: int) {
    mark.MarkFailed? && mark.deadLetteredAt.None? && mark.nextAttemptAt <= until && now <= until
  }

  /** Somebody was granted the row again, after its first n leases, no later than this. */
  ghost predicate RegrantedBy(s: State, id: RowId, n: nat, worker: WorkerId, until: int) {
    id in s.leases && exists k | n <= k < |s.leases[id]| :: s.leases[id][k].worker == worker && s.leases[id][k].from <= until
  }

  /** Some continuation grants the row again in time. */
  ghost predicate MayBeRegrantedBy(s: State, id: RowId, n: nat, worker: WorkerId, until: int) {
    exists more :: RegrantedBy(Run(s, more), id, n, worker, until)
  }

  // ---------- when a row is granted again in time ----------

  /** A claim of one row while all others are locked by other transactions. */
  function ClaimOnly(s: State, id: RowId, worker: WorkerId, duration: nat): Statement {
    Claim(worker, 1, duration, s.rows.Keys - {id})
  }

  lemma ClaimOnlyGrants(s: State, id: RowId, worker: WorkerId, duration: nat)
    requires s.rows.Keys == s.leases.Keys && id in s.rows && s.rows[id].Claimable(s.now)
    ensures var next := Apply(s, ClaimOnly(s, id, worker, duration));
      id in next.leases && next.leases[id] == s.leases[id] + [Lease(worker, s.now, s.now + duration, None)]
  {
    var ids := Candidates(s.rows, s.now, s.rows.Keys - {id});
    assert ids == {id};
    assert Ahead(s.rows, ids, id) == {};
  }

  function WaitFor(now: int, ready: int): nat {
    if ready <= now then 0 else ready - now
  }

  lemma RunTwo(s: State, first: Statement, second: Statement)
    ensures Run(s, [first, second]) == Apply(Apply(s, first), second)
  {
    assert [first, second][1..] == [second];
    assert Run(Apply(s, first), [second]) == Run(Apply(Apply(s, first), second), [second][1..]);
  }

  lemma FreedForRetry(s: State, mark: Statement)
    requires Inv(s) && mark.MarkFailed? && mark.deadLetteredAt.None? && Owns(s.rows, mark.id, mark.worker)
    ensures var freed := Apply(s, mark);
      && mark.id in freed.rows && freed.now == s.now && |freed.leases[mark.id]| == |s.leases[mark.id]|
      && forall now | now >= mark.nextAttemptAt :: freed.rows[mark.id].Claimable(now)
  {
    assert RowAgrees(s.rows[mark.id], s.leases[mark.id]);
  }

  lemma EarlyMarkLetsIntervalsOverlap(s: State, mark: Statement, other: WorkerId, duration: nat) returns (more: seq<Statement>)
    requires Inv(s) && mark.MarkFailed? && Owns(s.rows, mark.id, mark.worker)
    requires RetriesWithin(mark, s.rows[mark.id].lockedUntil.value, s.now)
    ensures RegrantedBy(Run(Apply(s, mark), more), mark.id, |s.leases[mark.id]|, other, s.rows[mark.id].lockedUntil.value)
    ensures MayBeRegrantedBy(Apply(s, mark), mark.id, |s.leases[mark.id]|, other, s.rows[mark.id].lockedUntil.value)
  {
    var freed := Apply(s, mark);
    FreedForRetry(s, mark);
    StepKeepsInv(s, mark);
    var tick := Tick(WaitFor(s.now, mark.nextAttemptAt));
    var ready := Apply(freed, tick);
    more := [tick, ClaimOnly(ready, mark.id, other, duration)];
    RunTwo(freed, more[0], more[1]);
    ClaimOnlyGrants(ready, mark.id, other, duration);
    var leases := Run(freed, more).leases[mark.id];
    assert leases[|s.leases[mark.id]|].worker == other;
  }

  // ---------- when it cannot be ----------

  /** Any grant after the first n is later than this, now and ever after. */
  ghost predicate Late(s: State, id: RowId, n: nat, until: int) {
    && id in s.rows && id in s.leases && |s.leases[id]| >= n
    && (forall k | n <= k < |s.leases[id]| :: s.leases[id][k].from > until)
    && (s.now > until || (|s.leases[id]| == n && s.rows[id].lockedBy.None? && (s.rows[id].Settled() || s.rows[id].nextAttemptAt > until)))
  }

  lemma StepKeepsLate(s: State, statement: Statement, id: RowId, n: nat, until: int)
    requires Late(s, id, n, until)
    ensures Late(Apply(s, statement), id, n, until)
  {
    var next := Apply(s, statement);
    forall k | n <= k < |next.leases[id]| ensures next.leases[id][k].from > until {
      if k < |s.leases[id]| {
        assert s.leases[id][k].from > until;
      }
    }
  }

  lemma {:induction false} RunKeepsLate(s: State, statements: seq<Statement>, id: RowId, n: nat, until: int)
    requires Late(s, id, n, until)
    ensures Late(Run(s, statements), id, n, until)
    decreases |statements|
  {
    if statements != [] {
      StepKeepsLate(s, statements[0], id, n, until);
      RunKeepsLate(Apply(s, statements[0]), statements[1..], id, n, until);
    }
  }

  lemma PatientMarkMakesLate(s: State, mark: Statement)
    requires Inv(s) && (mark.MarkFailed? || mark.MarkPublished?) && Owns(s.rows, mark.id, mark.worker)
    requires !RetriesWithin(mark, s.rows[mark.id].lockedUntil.value, s.now)
    ensures Late(Apply(s, mark), mark.id, |s.leases[mark.id]|, s.rows[mark.id].lockedUntil.value)
  {
    assert RowAgrees(s.rows[mark.id], s.leases[mark.id]);
  }

  /** A holder can tell before it marks its row whether the interval it was granted may be overlapped:
      some continuation grants the row again inside it exactly when the mark allows a retry, not later
      than the lease runs out, and the lease still runs.  Then any worker may be the next holder. */
  lemma OverlapPossibleExactlyWhen(start: int, statements: seq<Statement>, mark: Statement, other: WorkerId)
    requires mark.MarkFailed? || mark.MarkPublished?
    requires Owns(Run(Empty(start), statements).rows, mark.id, mark.worker)
    ensures var s := Run(Empty(start), statements);
      && mark.id in s.leases && s.rows[mark.id].lockedUntil.Some?
      && s.leases[mark.id] != [] && s.leases[mark.id][|s.leases[mark.id]| - 1].until == s.rows[mark.id].lockedUntil.value
      && (MayBeRegrantedBy(Apply(s, mark), mark.id, |s.leases[mark.id]|, other, s.rows[mark.id].lockedUntil.value)
          <==> RetriesWithin(mark, s.rows[mark.id].lockedUntil.value, s.now))
  {
    var s := Run(Empty(start), statements);
    RunKeepsInv(Empty(start), statements);
    assert RowAgrees(s.rows[mark.id], s.leases[mark.id]);
    var until := s.rows[mark.id].lockedUntil.value;
    if RetriesWithin(mark, until, s.now) {
      var more := EarlyMarkLetsIntervalsOverlap(s, mark, other, 1);
    } else {
      PatientMarkMakesLate(s, mark);
      forall more ensures !RegrantedBy(Run(Apply(s, mark), more), mark.id, |s.leases[mark.id]|, other, until) {
        RunKeepsLate(Apply(s, mark), more, mark.id, |s.leases[mark.id]|, until);
      }
    }
  }

  // ---------- whole runs ----------

  /** The statement does not put a row back for a retry inside the lease on it. */
  ghost predicate PatientStep(s: State, statement: Statement) {
    statement.MarkFailed? && Owns(s.rows, statement.id, statement.worker) && s.rows[statement.id].lockedUntil.Some? ==>
      !RetriesWithin(statement, s.rows[statement.id].lockedUntil.value, s.now)
  }

  ghost predicate Patient(s: State, statements: seq<Statement>)
    decreases |statements|
  {
    statements == [] || (PatientStep(s, statements[0]) && Patient(Apply(s, statements[0]), statements[1..]))
  }

  /** The intervals as granted do not overlap, and the next one cannot overlap the last. */
  ghost predicate Apart(row: Row, leases: seq<Lease>, now: int) {
    && (forall i, j | 0 <= i < j < |leases| :: leases[i].until < leases[j].from)
    && (leases != [] && row.lockedBy.None? && !row.Settled() ==> row.nextAttemptAt > leases[|leases| - 1].until || now > leases[|leases| - 1].until)
  }

  ghost predicate AllApart(s: State) {
    s.rows.Keys == s.leases.Keys && forall id | id in s.rows :: Apart(s.rows[id], s.leases[id], s.now)
  }

  lemma GrantKeepsApart(row: Row, leases: seq<Lease>, now: int, worker: WorkerId, duration: nat)
    requires RowInv(row, leases, now) && Apart(row, leases, now) && row.Claimable(now)
    ensures Apart(row.(lockedBy := Some(worker), lockedUntil := Some(now + duration)), leases + [Lease(worker, now, now + duration, None)], now)
  {
    var longer := leases + [Lease(worker, now, now + duration, None)];
    forall i, j | 0 <= i < j < |longer| ensures longer[i].until < longer[j].from {
      if j == |leases| && i < |leases| - 1 {
        assert leases[i].until < leases[|leases| - 1].from;
      }
      assert leases[|leases| - 1].until < now;
      assert leases[|leases| - 1].from <= now;
    }
  }

  lemma PatientStepKeepsApart(s: State, statement: Statement)
    requires Inv(s) && AllApart(s) && PatientStep(s, statement)
    ensures AllApart(Apply(s, statement))
  {
    match statement
    case Tick(_) =>
      forall id | id in s.rows ensures Apart(s.rows[id], s.leases[id], Apply(s, statement).now) {
        assert Apart(s.rows[id], s.leases[id], s.now);
      }
    case Insert(_, _, _, _, _, _) =>
    case Claim(worker, limit, duration, skipped) =>
      ClaimTakesOldest(s.rows, s.now, limit, skipped);
      GrantsKeepApart(s, Claimed(s.rows, s.now, limit, skipped), worker, duration);
    case MarkPublished(_, _, _) => MarkKeepsApart(s, statement);
    case MarkFailed(_, _, _, _, _) => MarkKeepsApart(s, statement);
  }

  lemma GrantKeepsApartOf(s: State, taken: set<RowId>, worker: WorkerId, duration: nat, id: RowId)
    requires s.rows.Keys == s.leases.Keys && id in s.rows && RowInv(s.rows[id], s.leases[id], s.now) && Apart(s.rows[id], s.leases[id], s.now)
    requires id in taken ==> s.rows[id].Claimable(s.now)
    ensures var next := Granted(s, taken, worker, duration); Apart(next.rows[id], next.leases[id], next.now)
  {
    if id in taken {
      GrantKeepsApart(s.rows[id], s.leases[id], s.now, worker, duration);
    }
  }

  lemma GrantsKeepApart(s: State, taken: set<RowId>, worker: WorkerId, duration: nat)
    requires Inv(s) && AllApart(s) && taken <= s.rows.Keys && forall id | id in taken :: s.rows[id].Claimable(s.now)
    ensures AllApart(Granted(s, taken, worker, duration))
  {
    var next := Granted(s, taken, worker, duration);
    forall id | id in next.rows ensures Apart(next.rows[id], next.leases[id], next.now) {
      GrantKeepsApartOf(s, taken, worker, duration, id);
    }
  }

  lemma MarkKeepsApartOf(s: State, mark: Statement)
    requires (mark.MarkPublished? || mark.MarkFailed?) && Owns(s.rows, mark.id, mark.worker) && PatientStep(s, mark)
    requires s.rows.Keys == s.leases.Keys && RowInv(s.rows[mark.id], s.leases[mark.id], s.now) && Apart(s.rows[mark.id], s.leases[mark.id], s.now)
    ensures Apart(Apply(s, mark).rows[mark.id], Apply(s, mark).leases[mark.id], s.now)
  {
  }

  lemma MarkKeepsApart(s: State, mark: Statement)
    requires Inv(s) && AllApart(s) && PatientStep(s, mark) && (mark.MarkPublished? || mark.MarkFailed?)
    ensures AllApart(Apply(s, mark))
  {
    if Owns(s.rows, mark.id, mark.worker) {
      var next := Apply(s, mark);
      MarkKeepsApartOf(s, mark);
      forall id | id in next.rows && id != mark.id ensures Apart(next.rows[id], next.leases[id], next.now) {
        assert next.rows[id] == s.rows[id] && next.leases[id] == s.leases[id];
      }
    }
  }

  lemma {:induction false} PatientRunKeepsApart(s: State, statements: seq<Statement>)
    requires Inv(s) && AllApart(s) && Patient(s, statements)
    ensures AllApart(Run(s, statements))
    decreases |statements|
  {
    if statements != [] {
      StepKeepsInv(s, statements[0]);
      PatientStepKeepsApart(s, statements[0]);
      PatientRunKeepsApart(Apply(s, statements[0]), statements[1..]);
    }
  }

  /** When no failure mark asks for a retry inside its own lease, the intervals as granted never
      overlap, whatever the interleaving. */
  lemma PatientMarksNeverOverlap(start: int, statements: seq<Statement>, id: RowId, i: nat, j: nat)
    requires Patient(Empty(start), statements)
    requires var s := Run(Empty(start), statements); id in s.leases && i < j < |s.leases[id]|
    ensures var leases := Run(Empty(start), statements).leases[id]; leases[i].until < leases[j].from
  {
    PatientRunKeepsApart(Empty(start), statements);
    var s := Run(Empty(start), statements);
    assert Apart(s.rows[id], s.leases[id], s.now);
  }
}
