/** Workers that run the claim / publish / mark loop one message at a time over a shared table,
    all with the same maximumAttempts, interleaved in any order and crashing at any point. */
module OutboxWorkers {
  import opened Wrappers
  import opened SetBasics
  import opened OutboxTable

  datatype Message = Message(id: RowId, tenantId: Option<string>, purpose: Option<string>, occurredAt: int, retryCount: nat)

  function ToMessage(id: RowId, row: Row): Message {
    Message(id, row.tenantId, row.purpose, row.occurredAt, row.retryCount)
  }

  function Messages(rows: Table, taken: set<RowId>): set<Message>
    requires taken <= rows.Keys
  {
    set id | id in taken :: ToMessage(id, rows[id])
  }

  datatype Outcome = Published | Retried | DeadLettered

  /** A history variable: a mark that took effect. */
  datatype Entry = Entry(worker: WorkerId, id: RowId, outcome: Outcome)

  /** `holding` is the message each worker's loop is working on; it is lost in a crash.  After a mark
      that took effect but whose answer was lost the loop still holds its message. */
  datatype System = System(outbox: State, holding: map<WorkerId, Message>, log: seq<Entry>)

  datatype Step =
    | Elapse(ms: nat)
    | Enqueue(newId: RowId, aggregateType: AggregateType, tenantId: Option<string>, purpose: Option<string>, occurredAt: int, readyAt: int)
    | Take(worker: WorkerId, duration: nat, skipped: set<RowId>)
    | Acknowledge(worker: WorkerId, publishedAt: int)
    | LostAcknowledge(worker: WorkerId, publishedAt: int)
    | GiveUp(worker: WorkerId, error: string, failedAt: int, delay: nat)
    | Crash(worker: WorkerId)

  predicate ActsFor(step: Step, worker: WorkerId) {
    (step.Take? || step.Acknowledge? || step.LostAcknowledge? || step.GiveUp? || step.Crash?) && step.worker == worker
  }

  function DeadLetterTime(attempt: nat, maximumAttempts: nat, failedAt: int): Option<int> {
    if attempt >= maximumAttempts then Some(failedAt) else None
  }

  function FailureMark(m: Message, step: Step, maximumAttempts: nat): Statement
    requires step.GiveUp?
  {
    MarkFailed(m.id, step.worker, step.error, step.failedAt + step.delay, DeadLetterTime(m.retryCount + 1, maximumAttempts, step.failedAt))
  }

  function PickedUp(sys: System, worker: WorkerId, taken: set<RowId>): map<WorkerId, Message>
    requires taken <= sys.outbox.rows.Keys && |taken| <= 1
  {
    if taken == {} then sys.holding
    else
      var id := Sole(taken);
      sys.holding[worker := ToMessage(id, sys.outbox.rows[id])]
  }

  function Perform(sys: System, step: Step, maximumAttempts: nat): System {
    match step
    case Elapse(ms) => sys.(outbox := Apply(sys.outbox, Tick(ms)))
    case Enqueue(id, aggregateType, tenantId, purpose, occurredAt, readyAt) =>
      sys.(outbox := Apply(sys.outbox, Insert(id, aggregateType, tenantId, purpose, occurredAt, readyAt)))
    case Take(worker, duration, skipped) =>
      if worker in sys.holding then sys
      else
        var taken := Claimed(sys.outbox.rows, sys.outbox.now, 1, skipped);
        ClaimTakesOldest(sys.outbox.rows, sys.outbox.now, 1, skipped);
        sys.(outbox := Apply(sys.outbox, Claim(worker, 1, duration, skipped)), holding := PickedUp(sys, worker, taken))
    case Acknowledge(worker, publishedAt) =>
      if worker !in sys.holding || !Owns(sys.outbox.rows, sys.holding[worker].id, worker) then sys
      else
        var m := sys.holding[worker];
        System(Apply(sys.outbox, MarkPublished(m.id, worker, publishedAt)), sys.holding - {worker},
               sys.log + [Entry(worker, m.id, Published)])
    case LostAcknowledge(worker, publishedAt) =>
      if worker !in sys.holding || !Owns(sys.outbox.rows, sys.holding[worker].id, worker) then sys
      else
        var m := sys.holding[worker];
        System(Apply(sys.outbox, MarkPublished(m.id, worker, publishedAt)), sys.holding, sys.log + [Entry(worker, m.id, Published)])
    case GiveUp(worker, _, _, _) =>
      if worker !in sys.holding then sys
      else
        var m := sys.holding[worker];
        var mark := FailureMark(m, step, maximumAttempts);
        System(Apply(sys.outbox, mark), sys.holding - {worker},
               if !Owns(sys.outbox.rows, m.id, worker) then sys.log
               else sys.log + [Entry(worker, m.id, if mark.deadLetteredAt.Some? then DeadLettered else Retried)])
    case Crash(worker) => sys.(holding := sys.holding - {worker})
  }

  function PerformAll(sys: System, steps: seq<Step>, maximumAttempts: nat): System
    decreases |steps|
  {
    if steps == [] then sys else PerformAll(Perform(sys, steps[0], maximumAttempts), steps[1..], maximumAttempts)
  }

  lemma {:induction false} PerformAppend(sys: System, steps: seq<Step>, more: seq<Step>, maximumAttempts: nat)
    ensures PerformAll(sys, steps + more, maximumAttempts) == PerformAll(PerformAll(sys, steps, maximumAttempts), more, maximumAttempts)
    decreases |steps|
  {
    if steps == [] {
      assert steps + more == more;
    } else {
      assert (steps + more)[1..] == steps[1..] + more;
      PerformAppend(Perform(sys, steps[0], maximumAttempts), steps[1..], more, maximumAttempts);
    }
  }

  function Start(now: int): System {
    System(Empty(now), map[], [])
  }

  // ---------- retry counts ----------

  /** Live and published rows have not used up their attempts; dead letters have, exactly. */
  ghost predicate RowWithinAttempts(row: Row, maximumAttempts: nat) {
    if row.deadLetteredAt.Some? then row.retryCount == maximumAttempts else row.retryCount < maximumAttempts
  }

  ghost predicate AttemptsInv(sys: System, maximumAttempts: nat) {
    && (forall id | id in sys.outbox.rows :: RowWithinAttempts(sys.outbox.rows[id], maximumAttempts))
    && (forall w | w in sys.holding :: sys.holding[w].id in sys.outbox.rows)
    && (forall w | w in sys.holding && Owns(sys.outbox.rows, sys.holding[w].id, w) ::
          sys.outbox.rows[sys.holding[w].id].retryCount == sys.holding[w].retryCount)
  }

  lemma TakeKeepsAttempts(sys: System, step: Step, maximumAttempts: nat)
    requires AttemptsInv(sys, maximumAttempts) && step.Take?
    ensures AttemptsInv(Perform(sys, step, maximumAttempts), maximumAttempts)
  {
    if step.worker !in sys.holding {
      var next := Perform(sys, step, maximumAttempts);
      var taken := Claimed(sys.outbox.rows, sys.outbox.now, 1, step.skipped);
      ClaimTakesOldest(sys.outbox.rows, sys.outbox.now, 1, step.skipped);
      forall id | id in next.outbox.rows ensures RowWithinAttempts(next.outbox.rows[id], maximumAttempts) {
        assert RowWithinAttempts(sys.outbox.rows[id], maximumAttempts);
      }
      forall w | w in next.holding && Owns(next.outbox.rows, next.holding[w].id, w)
        ensures next.outbox.rows[next.holding[w].id].retryCount == next.holding[w].retryCount
      {
        if w != step.worker && next.holding[w].id !in taken {
          assert Owns(sys.outbox.rows, sys.holding[w].id, w);
        }
      }
    }
  }

  lemma AcknowledgeKeepsAttempts(sys: System, step: Step, maximumAttempts: nat)
    requires AttemptsInv(sys, maximumAttempts) && (step.Acknowledge? || step.LostAcknowledge?)
    ensures AttemptsInv(Perform(sys, step, maximumAttempts), maximumAttempts)
  {
    var next := Perform(sys, step, maximumAttempts);
    forall id | id in next.outbox.rows ensures RowWithinAttempts(next.outbox.rows[id], maximumAttempts) {
      assert RowWithinAttempts(sys.outbox.rows[id], maximumAttempts);
    }
  }

  lemma GiveUpKeepsAttempts(sys: System, step: Step, maximumAttempts: nat)
    requires AttemptsInv(sys, maximumAttempts) && step.GiveUp?
    ensures AttemptsInv(Perform(sys, step, maximumAttempts), maximumAttempts)
  {
    var next := Perform(sys, step, maximumAttempts);
    forall id | id in next.outbox.rows ensures RowWithinAttempts(next.outbox.rows[id], maximumAttempts) {
      assert RowWithinAttempts(sys.outbox.rows[id], maximumAttempts);
    }
  }

  lemma PerformKeepsAttempts(sys: System, step: Step, maximumAttempts: nat)
    requires maximumAttempts > 0 && AttemptsInv(sys, maximumAttempts)
    ensures AttemptsInv(Perform(sys, step, maximumAttempts), maximumAttempts)
  {
    match step
    case Elapse(_) =>
    case Enqueue(_, _, _, _, _, _) =>
    case Take(_, _, _) => TakeKeepsAttempts(sys, step, maximumAttempts);
    case Acknowledge(_, _) => AcknowledgeKeepsAttempts(sys, step, maximumAttempts);
    case LostAcknowledge(_, _) => AcknowledgeKeepsAttempts(sys, step, maximumAttempts);
    case GiveUp(_, _, _, _) => GiveUpKeepsAttempts(sys, step, maximumAttempts);
    case Crash(_) =>
  }

  lemma {:induction false} RunKeepsAttempts(sys: System, steps: seq<Step>, maximumAttempts: nat)
    requires maximumAttempts > 0 && AttemptsInv(sys, maximumAttempts)
    ensures AttemptsInv(PerformAll(sys, steps, maximumAttempts), maximumAttempts)
    decreases |steps|
  {
    if steps != [] {
      PerformKeepsAttempts(sys, steps[0], maximumAttempts);
      RunKeepsAttempts(Perform(sys, steps[0], maximumAttempts), steps[1..], maximumAttempts);
    }
  }

  // ---------- every worker run is a run of statements ----------

  /** The statement a step sends to the database, if any. */
  function StatementOf(sys: System, step: Step, maximumAttempts: nat): Option<Statement> {
    match step
    case Elapse(ms) => Some(Tick(ms))
    case Enqueue(id, aggregateType, tenantId, purpose, occurredAt, readyAt) =>
      Some(Insert(id, aggregateType, tenantId, purpose, occurredAt, readyAt))
    case Take(worker, duration, skipped) => if worker in sys.holding then None else Some(Claim(worker, 1, duration, skipped))
    case Acknowledge(worker, publishedAt) =>
      if worker in sys.holding then Some(MarkPublished(sys.holding[worker].id, worker, publishedAt)) else None
    case LostAcknowledge(worker, publishedAt) =>
      if worker in sys.holding then Some(MarkPublished(sys.holding[worker].id, worker, publishedAt)) else None
    case GiveUp(worker, _, _, _) =>
      if worker in sys.holding then Some(FailureMark(sys.holding[worker], step, maximumAttempts)) else None
    case Crash(_) => None
  }

  ghost function StatementsOf(sys: System, steps: seq<Step>, maximumAttempts: nat): seq<Statement>
    decreases |steps|
  {
    if steps == [] then []
    else
      var first := StatementOf(sys, steps[0], maximumAttempts);
      (if first.Some? then [first.value] else []) + StatementsOf(Perform(sys, steps[0], maximumAttempts), steps[1..], maximumAttempts)
  }

  /** What workers do to the table is a run of the statements, so every property of runs of
      statements (disjoint leases, frozen settled rows) holds of worker runs. */
  lemma {:induction false} WorkersRunStatements(sys: System, steps: seq<Step>, maximumAttempts: nat)
    ensures PerformAll(sys, steps, maximumAttempts).outbox == Run(sys.outbox, StatementsOf(sys, steps, maximumAttempts))
    decreases |steps|
  {
    if steps != [] {
      var first := StatementOf(sys, steps[0], maximumAttempts);
      var next := Perform(sys, steps[0], maximumAttempts);
      var rest := StatementsOf(next, steps[1..], maximumAttempts);
      WorkersRunStatements(next, steps[1..], maximumAttempts);
      if first.Some? {
        assert ([first.value] + rest)[1..] == rest;
        assert next.outbox == Apply(sys.outbox, first.value);
      } else {
        assert [] + rest == rest;
      }
    }
  }

  /** In every run of workers that share maximumAttempts, a row that can still be delivered has
      failed fewer than maximumAttempts times and a dead letter exactly maximumAttempts times. */
  lemma AttemptsStayWithinLimit(now: int, steps: seq<Step>, maximumAttempts: nat, id: RowId)
    requires maximumAttempts > 0 && id in PerformAll(Start(now), steps, maximumAttempts).outbox.rows
    ensures var row := PerformAll(Start(now), steps, maximumAttempts).outbox.rows[id];
      && (!row.Settled() ==> row.retryCount < maximumAttempts)
      && (row.publishedAt.Some? ==> row.retryCount < maximumAttempts)
      && (row.deadLetteredAt.Some? ==> row.retryCount == maximumAttempts)
  {
    RunKeepsAttempts(Start(now), steps, maximumAttempts);
    WorkersRunStatements(Start(now), steps, maximumAttempts);
    NeverBothTerminal(now, StatementsOf(Start(now), steps, maximumAttempts), id);
    assert RowWithinAttempts(PerformAll(Start(now), steps, maximumAttempts).outbox.rows[id], maximumAttempts);
  }

  /** A published or dead-lettered row stays so whatever workers do. */
  lemma SettledStaysSettled(sys: System, steps: seq<Step>, maximumAttempts: nat, id: RowId)
    requires id in sys.outbox.rows && sys.outbox.rows[id].Settled()
    ensures id in PerformAll(sys, steps, maximumAttempts).outbox.rows && PerformAll(sys, steps, maximumAttempts).outbox.rows[id].Settled()
  {
    WorkersRunStatements(sys, steps, maximumAttempts);
    SettledRowsAreFrozen(sys.outbox, StatementsOf(sys, steps, maximumAttempts), id);
  }

  // ---------- the log ----------

  function LogOf(log: seq<Entry>, worker: WorkerId): seq<Entry> {
    if log == [] then []
    else
      var before := LogOf(log[..|log| - 1], worker);
      if log[|log| - 1].worker == worker then before + [log[|log| - 1]] else before
  }

  lemma LogOfAppend(log: seq<Entry>, entry: Entry, worker: WorkerId)
    ensures LogOf(log + [entry], worker) == if entry.worker == worker then LogOf(log, worker) + [entry] else LogOf(log, worker)
  {
    assert (log + [entry])[..|log + [entry]| - 1] == log;
  }

  /** The worker's message and log are as they were, and so is every row it still owns. */
  ghost predicate LeavesAlone(sys: System, next: System, worker: WorkerId) {
    && (forall id | Owns(next.outbox.rows, id, worker) :: id in sys.outbox.rows && next.outbox.rows[id] == sys.outbox.rows[id])
    && LogOf(next.log, worker) == LogOf(sys.log, worker)
    && (worker in next.holding <==> worker in sys.holding)
    && (worker in sys.holding ==> next.holding[worker] == sys.holding[worker])
  }

  /** A step of one worker touches its own message only and logs at most one mark of its own. */
  lemma ActsForItself(sys: System, step: Step, maximumAttempts: nat)
    requires step.Acknowledge? || step.LostAcknowledge? || step.GiveUp?
    ensures var next := Perform(sys, step, maximumAttempts);
      && next.holding - {step.worker} == sys.holding - {step.worker}
      && (next.log == sys.log || exists id, outcome :: next.log == sys.log + [Entry(step.worker, id, outcome)])
  {
  }

  lemma OtherMarkLeavesWorkerAlone(sys: System, step: Step, maximumAttempts: nat, worker: WorkerId)
    requires (step.Acknowledge? || step.LostAcknowledge? || step.GiveUp?) && step.worker != worker
    ensures LeavesAlone(sys, Perform(sys, step, maximumAttempts), worker)
  {
    var next := Perform(sys, step, maximumAttempts);
    ActsForItself(sys, step, maximumAttempts);
    OnlyItsOwn(sys, next, step.worker, worker);
  }

  lemma OnlyItsOwn(sys: System, next: System, actor: WorkerId, worker: WorkerId)
    requires actor != worker && next.holding - {actor} == sys.holding - {actor}
    requires forall id | Owns(next.outbox.rows, id, worker) :: id in sys.outbox.rows && next.outbox.rows[id] == sys.outbox.rows[id]
    requires next.log == sys.log || exists id, outcome :: next.log == sys.log + [Entry(actor, id, outcome)]
    ensures LeavesAlone(sys, next, worker)
  {
    assert worker in sys.holding <==> worker in sys.holding - {actor};
    assert worker in next.holding <==> worker in next.holding - {actor};
    assert worker in sys.holding ==> (sys.holding - {actor})[worker] == sys.holding[worker];
    if next.log != sys.log {
      var id, outcome :| next.log == sys.log + [Entry(actor, id, outcome)];
      LogOfAppend(sys.log, Entry(actor, id, outcome), worker);
    }
  }

  lemma OtherStepLeavesWorkerAlone(sys: System, step: Step, maximumAttempts: nat, worker: WorkerId)
    requires !ActsFor(step, worker)
    ensures LeavesAlone(sys, Perform(sys, step, maximumAttempts), worker)
  {
    if step.Acknowledge? || step.LostAcknowledge? || step.GiveUp? {
      OtherMarkLeavesWorkerAlone(sys, step, maximumAttempts, worker);
    }
  }

  /** What other workers do changes neither a worker's message nor its log nor a row it still owns. */
  lemma {:induction false} OthersLeaveWorkerAlone(sys: System, steps: seq<Step>, maximumAttempts: nat, worker: WorkerId)
    requires forall i | 0 <= i < |steps| :: !ActsFor(steps[i], worker)
    ensures LeavesAlone(sys, PerformAll(sys, steps, maximumAttempts), worker)
    decreases |steps|
  {
    if steps != [] {
      OtherStepLeavesWorkerAlone(sys, steps[0], maximumAttempts, worker);
      OthersLeaveWorkerAlone(Perform(sys, steps[0], maximumAttempts), steps[1..], maximumAttempts, worker);
    }
  }

  /** A settled row is settled by one logged mark: each row has at most one Published or
      DeadLettered entry in the log of all workers. */
  ghost predicate Final(entry: Entry) { entry.outcome != Retried }

  ghost predicate LogInv(sys: System) {
    && (forall i | 0 <= i < |sys.log| && Final(sys.log[i]) :: sys.log[i].id in sys.outbox.rows && sys.outbox.rows[sys.log[i].id].Settled())
    && (forall i, j | 0 <= i < j < |sys.log| && sys.log[i].id == sys.log[j].id :: !Final(sys.log[i]))
  }

  lemma PerformKeepsLog(sys: System, step: Step, maximumAttempts: nat)
    requires LogInv(sys)
    ensures LogInv(Perform(sys, step, maximumAttempts))
  {
    var next := Perform(sys, step, maximumAttempts);
    var statement := StatementOf(sys, step, maximumAttempts);
    forall id | id in sys.outbox.rows && sys.outbox.rows[id].Settled()
      ensures id in next.outbox.rows && next.outbox.rows[id].Settled()
    {
      if statement.Some? {
        SettledRowsAreFrozen(sys.outbox, [statement.value], id);
      }
    }
  }

  lemma {:induction false} RunKeepsLog(sys: System, steps: seq<Step>, maximumAttempts: nat)
    requires LogInv(sys)
    ensures LogInv(PerformAll(sys, steps, maximumAttempts))
    decreases |steps|
  {
    if steps != [] {
      PerformKeepsLog(sys, steps[0], maximumAttempts);
      RunKeepsLog(Perform(sys, steps[0], maximumAttempts), steps[1..], maximumAttempts);
    }
  }

  /** Over all workers, no mark on a row takes effect after one that published or dead-lettered it. */
  lemma FinalMarkIsLast(now: int, steps: seq<Step>, maximumAttempts: nat, i: nat, j: nat)
    requires var log := PerformAll(Start(now), steps, maximumAttempts).log; i < j < |log| && log[i].id == log[j].id
    ensures var log := PerformAll(Start(now), steps, maximumAttempts).log; log[i].outcome == Retried
  {
    RunKeepsLog(Start(now), steps, maximumAttempts);
    assert !Final(PerformAll(Start(now), steps, maximumAttempts).log[i]);
  }
}
