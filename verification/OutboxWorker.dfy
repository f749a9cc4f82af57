/** OutboxWorker: the delivery loop of one worker and its retry delay. */
module OutboxWorker {
  import opened Integers
  import opened Wrappers
  import opened SetBasics
  import opened OutboxTable
  import opened OutboxLeases
  import opened OutboxWorkers
  import opened OutboxRepository

  // ---------- retry delay ----------

  datatype RangeError = NotPositive | BaseExceedsMaximum

  /** baseDelayMs * 2 ** exponent */
  function Backoff(baseDelayMs: nat, exponent: nat): nat {
    if exponent == 0 then baseDelayMs else 2 * Backoff(baseDelayMs, exponent - 1)
  }

  function Capped(retryCount: nat, baseDelayMs: nat, maximumDelayMs: nat): nat
    requires retryCount >= 1
  {
    var exponent := if retryCount - 1 < 30 then retryCount - 1 else 30;
    var uncapped := Backoff(baseDelayMs, exponent);
    if uncapped < maximumDelayMs then uncapped else maximumDelayMs
  }

  function Jitter(random: real): real {
    var clamped := if random < 0.0 then 0.0 else if random > 1.0 then 1.0 else random;
    0.5 + clamped * 0.5
  }

  function AtLeastOne(delay: real): int {
    if delay.Floor < 1 then 1 else delay.Floor
  }

  function Scaled(capped: nat, jitter: real): int {
    AtLeastOne(capped as real * jitter)
  }

  function CalculateRetryDelayMs(retryCount: int, baseDelayMs: int, maximumDelayMs: int, random: real): Result<int, RangeError> {
    if retryCount < 1 || baseDelayMs < 1 || maximumDelayMs < 1 then Failure(NotPositive)
    else if baseDelayMs > maximumDelayMs then Failure(BaseExceedsMaximum)
    else Success(Scaled(Capped(retryCount, baseDelayMs, maximumDelayMs), Jitter(random)))
  }

  lemma {:induction false} BackoffGrows(baseDelayMs: nat, a: nat, b: nat)
    requires baseDelayMs >= 1 && a <= b
    ensures 1 <= Backoff(baseDelayMs, a) <= Backoff(baseDelayMs, b)
    decreases b
  {
    if a < b {
      BackoffGrows(baseDelayMs, a, b - 1);
    } else if a > 0 {
      BackoffGrows(baseDelayMs, a - 1, b - 1);
    }
  }

  lemma CappedGrows(retryCount: nat, later: nat, baseDelayMs: nat, maximumDelayMs: nat)
    requires 1 <= retryCount <= later && 1 <= baseDelayMs <= maximumDelayMs
    ensures 1 <= Capped(retryCount, baseDelayMs, maximumDelayMs) <= Capped(later, baseDelayMs, maximumDelayMs) <= maximumDelayMs
  {
    BackoffGrows(baseDelayMs, if retryCount - 1 < 30 then retryCount - 1 else 30, if later - 1 < 30 then later - 1 else 30);
  }

  lemma ProductBounds(c: real, jitter: real)
    requires c >= 0.0 && 0.5 <= jitter <= 1.0
    ensures 0.5 * c <= c * jitter <= c
  {
    assert c * (1.0 - jitter) >= 0.0 && c * (jitter - 0.5) >= 0.0;
    assert c * (1.0 - jitter) == c - c * jitter && c * (jitter - 0.5) == c * jitter - c * 0.5;
  }

  lemma FloorBounds(c: nat, p: real)
    requires c >= 1 && 0.5 * c as real <= p <= c as real
    ensures 1 <= AtLeastOne(p) <= c <= 2 * AtLeastOne(p) + 1
  {
  }

  lemma ScaledFrom(capped: nat, jitter: real, product: real)
    requires capped >= 1 && product == capped as real * jitter && 0.5 * capped as real <= product <= capped as real
    ensures 1 <= Scaled(capped, jitter) <= capped <= 2 * Scaled(capped, jitter) + 1
  {
    FloorBounds(capped, product);
  }

  lemma ScaledBounds(capped: nat, jitter: real)
    requires capped >= 1 && 0.5 <= jitter <= 1.0
    ensures 1 <= Scaled(capped, jitter) <= capped <= 2 * Scaled(capped, jitter) + 1
  {
    var product := capped as real * jitter;
    assert 0.5 * capped as real <= product <= capped as real by {
      ProductBounds(capped as real, jitter);
    }
    ScaledFrom(capped, jitter, product);
  }

  lemma AtLeastOneGrows(p: real, q: real)
    requires p <= q
    ensures AtLeastOne(p) <= AtLeastOne(q)
  {
  }

  lemma ScaledGrows(a: nat, b: nat, jitter: real)
    requires a <= b && 0.0 <= jitter
    ensures Scaled(a, jitter) <= Scaled(b, jitter)
  {
    assert (b as real - a as real) * jitter >= 0.0;
    AtLeastOneGrows(a as real * jitter, b as real * jitter);
  }

  /** 2 ** n */
  ghost function PowerOfTwo(n: nat): nat {
    if n == 0 then 1 else 2 * PowerOfTwo(n - 1)
  }

  lemma {:induction false} BackoffIsPower(baseDelayMs: nat, exponent: nat)
    ensures Backoff(baseDelayMs, exponent) == baseDelayMs * PowerOfTwo(exponent)
  {
    if exponent > 0 {
      BackoffIsPower(baseDelayMs, exponent - 1);
    }
  }

  /** The delay lies after `failedAt`, between half (rounded down) and all of the base delay doubled for
      every failure before, thirty times at most, and cut off at the maximum. */
  ghost predicate WithinBackoff(nextAttemptAt: int, failedAt: int, failuresBefore: nat, baseDelayMs: int, maximumDelayMs: int) {
    var backoff := Min(baseDelayMs * PowerOfTwo(Min(failuresBefore, 30)), maximumDelayMs);
    failedAt < nextAttemptAt && failedAt + backoff / 2 <= nextAttemptAt <= failedAt + backoff
  }

  /** So it is for every random draw. */
  lemma RetryDelayBounds(retryCount: int, baseDelayMs: int, maximumDelayMs: int, random: real, failedAt: int)
    requires retryCount >= 1 && 1 <= baseDelayMs <= maximumDelayMs
    ensures var r := CalculateRetryDelayMs(retryCount, baseDelayMs, maximumDelayMs, random);
      r.Success? && WithinBackoff(failedAt + r.value, failedAt, retryCount - 1, baseDelayMs, maximumDelayMs)
  {
    CappedGrows(retryCount, retryCount, baseDelayMs, maximumDelayMs);
    ScaledBounds(Capped(retryCount, baseDelayMs, maximumDelayMs), Jitter(random));
    BackoffIsPower(baseDelayMs, Min(retryCount - 1, 30));
  }

  /** A later attempt never waits less, for the same draw. */
  lemma RetryDelayGrows(retryCount: int, later: int, baseDelayMs: int, maximumDelayMs: int, random: real)
    requires 1 <= retryCount <= later && 1 <= baseDelayMs <= maximumDelayMs
    ensures CalculateRetryDelayMs(retryCount, baseDelayMs, maximumDelayMs, random).value
         <= CalculateRetryDelayMs(later, baseDelayMs, maximumDelayMs, random).value
  {
    CappedGrows(retryCount, later, baseDelayMs, maximumDelayMs);
    ScaledGrows(Capped(retryCount, baseDelayMs, maximumDelayMs), Capped(later, baseDelayMs, maximumDelayMs), Jitter(random));
  }

  // ---------- the loop ----------

  datatype Options = Options(
    workerId: WorkerId,
    batchSize: int,
    lockDurationMs: int,
    publishTimeoutMs: int,
    maximumAttempts: int,
    baseRetryDelayMs: int,
    maximumRetryDelayMs: int)
  {
    predicate Valid() {
      && ValidWorkerId(workerId)
      && batchSize >= 1 && lockDurationMs >= 1 && publishTimeoutMs >= 1 && maximumAttempts >= 1
      && 1 <= baseRetryDelayMs <= maximumRetryDelayMs
      && publishTimeoutMs + 1000 <= lockDurationMs
    }
  }

  datatype RunResult =
    | Completed(claimed: nat, published: nat, retried: nat, deadLettered: nat)
    | Threw

  function NormalizeError(message: string): string {
    Truncated(if message == "" then "unknown delivery failure" else message)
  }

  /** How the marks a worker made grew during one run: published messages, then at most one failure. */
  ghost predicate LogGrewBy(before: seq<Entry>, after: seq<Entry>, published: nat, retried: nat, deadLettered: nat) {
    && retried + deadLettered <= 1
    && |after| == |before| + published + retried + deadLettered
    && before <= after
    && (forall k | |before| <= k < |before| + published :: after[k].outcome == Published)
    && (retried == 1 ==> after[|after| - 1].outcome == Retried)
    && (deadLettered == 1 ==> after[|after| - 1].outcome == DeadLettered)
  }

  /** All new marks but the last are Published. */
  ghost predicate LogGrew(before: seq<Entry>, after: seq<Entry>) {
    before <= after && forall k | |before| <= k < |after| - 1 :: after[k].outcome == Published
  }

  /** What a failure at this time leaves in its row: a dead letter of that time after the last permitted
      attempt, otherwise a retry within the backoff. */
  ghost predicate Failed(row: Row, failuresBefore: nat, options: Options, failedAt: int) {
    && row.retryCount == failuresBefore + 1
    && row.publishedAt == None && row.lockedBy == None && row.lockedUntil == None
    && row.deadLetteredAt == (if failuresBefore + 1 >= options.maximumAttempts then Some(failedAt) else None)
    && Within(options, row.nextAttemptAt, failedAt, failuresBefore)
  }

  ghost predicate Within(options: Options, nextAttemptAt: int, failedAt: int, failuresBefore: nat) {
    WithinBackoff(nextAttemptAt, failedAt, failuresBefore, options.baseRetryDelayMs, options.maximumRetryDelayMs)
  }

  /** When the last new mark is a failure, its row is as that failure left it. */
  ghost predicate LastFailureStands(before: seq<Entry>, after: seq<Entry>, rows: Table, options: Options, failedAt: int) {
    |after| > |before| && after[|after| - 1].outcome != Published ==>
      var last := after[|after| - 1];
      && last.id in rows && rows[last.id].retryCount >= 1
      && Failed(rows[last.id], rows[last.id].retryCount - 1, options, failedAt)
      && (last.outcome == DeadLettered <==> rows[last.id].deadLetteredAt == Some(failedAt))
  }

  /** Whatever all workers do after a retry was scheduled, nobody is granted the row before it is due, and
      after a dead letter or a publication nobody ever is. */
  lemma RetryWaits(sys: System, steps: seq<Step>, maximumAttempts: nat, id: RowId, k: nat)
    requires id in sys.outbox.rows && id in sys.outbox.leases && sys.outbox.rows[id].lockedBy == None
    requires var s := PerformAll(sys, steps, maximumAttempts).outbox; id in s.leases && |sys.outbox.leases[id]| <= k < |s.leases[id]|
    ensures var row := sys.outbox.rows[id];
      && row.deadLetteredAt == None && row.publishedAt == None
      && PerformAll(sys, steps, maximumAttempts).outbox.leases[id][k].from >= row.nextAttemptAt
  {
    var row, n := sys.outbox.rows[id], |sys.outbox.leases[id]|;
    WorkersRunStatements(sys, steps, maximumAttempts);
    var statements := StatementsOf(sys, steps, maximumAttempts);
    if row.Settled() {
      RunKeepsLate(sys.outbox, statements, id, n, Run(sys.outbox, statements).leases[id][k].from);
      assert false;
    }
    RunKeepsLate(sys.outbox, statements, id, n, row.nextAttemptAt - 1);
  }

  lemma LogGrewOnce(before: seq<Entry>, after: seq<Entry>, published: nat, entry: Entry)
    requires LogGrewBy(before, after, published, 0, 0)
    ensures match entry.outcome
      case Published => LogGrewBy(before, after + [entry], published + 1, 0, 0)
      case Retried => LogGrewBy(before, after + [entry], published, 1, 0)
      case DeadLettered => LogGrewBy(before, after + [entry], published, 0, 1)
  {
  }

  function OutcomeOf(message: Message, options: Options): Outcome {
    if message.retryCount + 1 >= options.maximumAttempts then DeadLettered else Retried
  }

  class Worker {
    const options: Options
    const repository: PostgresOutboxRepository

    constructor (options: Options, repository: PostgresOutboxRepository)
      requires options.Valid()
      ensures this.options == options && this.repository == repository
    {
      this.options, this.repository := options, repository;
    }

    /** The broker and the abort signal may answer either way. */
    method Undetermined() returns (answer: bool)
    {
      answer := *;
    }

    /** One step of this worker, after any steps of the others. */
    ghost method Extend(sys: System, steps: seq<Step>, start: System, step: Step) returns (sys': System, steps': seq<Step>)
      requires options.Valid() && sys == PerformAll(start, steps, options.maximumAttempts)
      ensures sys' == Perform(sys, step, options.maximumAttempts) && steps' == steps + [step]
      ensures sys' == PerformAll(start, steps', options.maximumAttempts)
    {
      PerformAppend(start, steps, [step], options.maximumAttempts);
      sys', steps' := Perform(sys, step, options.maximumAttempts), steps + [step];
    }

    /** The others act; this worker's message and marks stay as they were. */
    method Yield(ghost sys: System, ghost steps: seq<Step>, ghost start: System) returns (ghost sys': System, ghost steps': seq<Step>)
      requires options.Valid() && sys == PerformAll(start, steps, options.maximumAttempts) && sys.outbox == repository.State()
      modifies repository
      ensures sys'.outbox == repository.State() && sys' == PerformAll(start, steps', options.maximumAttempts)
      ensures LogOf(sys'.log, options.workerId) == LogOf(sys.log, options.workerId)
      ensures options.workerId in sys'.holding <==> options.workerId in sys.holding
      ensures options.workerId in sys.holding ==> sys'.holding[options.workerId] == sys.holding[options.workerId]
      ensures forall id | id in sys.outbox.rows && sys.outbox.rows[id].Settled() :: id in sys'.outbox.rows && sys'.outbox.rows[id].Settled()
      ensures forall id | Owns(sys'.outbox.rows, id, options.workerId) :: id in sys.outbox.rows && sys'.outbox.rows[id] == sys.outbox.rows[id]
    {
      ghost var others := repository.OthersAct(sys, options.workerId, options.maximumAttempts);
      sys', steps' := PerformAll(sys, others, options.maximumAttempts), steps + others;
      PerformAppend(start, steps, others, options.maximumAttempts);
      OthersLeaveWorkerAlone(sys, others, options.maximumAttempts, options.workerId);
      forall id | id in sys.outbox.rows && sys.outbox.rows[id].Settled() ensures id in sys'.outbox.rows && sys'.outbox.rows[id].Settled() {
        SettledStaysSettled(sys, others, options.maximumAttempts, id);
      }
    }

    /** What every part of the loop keeps: the shared system is the outcome of a run of steps. */
    ghost predicate Tracks(sys: System, steps: seq<Step>, start: System)
      reads repository
    {
      options.Valid() && sys.outbox == repository.State() && sys == PerformAll(start, steps, options.maximumAttempts)
    }

    /** The message is that of a due row, which the worker now has a lease of the given duration on. */
    ghost predicate Took(message: Message, sys: System, sys': System) {
      && message.id in sys.outbox.rows && message.id in sys'.outbox.rows
      && var row := sys.outbox.rows[message.id];
      && Due(row, sys.outbox.now)
      && message == Message(message.id, row.tenantId, row.purpose, row.occurredAt, row.retryCount)
      && sys'.outbox.rows[message.id] ==
           row.(lockedBy := Some(options.workerId), lockedUntil := Some(sys.outbox.now + options.lockDurationMs))
    }

    /** As long as the worker owns the row, the message tells how often it has failed. */
    ghost predicate UpToDate(message: Message, sys: System) {
      message.id in sys.outbox.rows && sys.outbox.rows[message.id].OwnedBy(options.workerId) ==>
        sys.outbox.rows[message.id].retryCount == message.retryCount
    }

    /** A claim may take effect and fail all the same: then the row is leased to the worker, who does not
        hold its message. */
    method ClaimOne(ghost sys: System, ghost steps: seq<Step>, ghost start: System)
        returns (claim: Result<Option<Message>, RepositoryError>, ghost sys': System, ghost steps': seq<Step>)
      requires Tracks(sys, steps, start) && options.workerId !in sys.holding
      modifies repository
      ensures Tracks(sys', steps', start) && sys'.log == sys.log
      ensures if claim.Success? && claim.value.Some?
        then sys'.holding == sys.holding[options.workerId := claim.value.value] && Took(claim.value.value, sys, sys')
        else sys'.holding == sys.holding
    {
      var skipped: set<RowId> := *;
      var claimed := repository.ClaimBatch(options.workerId, 1, options.lockDurationMs, skipped);
      if claimed.Failure? {
        return Failure(claimed.error), sys, steps;
      }
      sys', steps' := Extend(sys, steps, start, Take(options.workerId, options.lockDurationMs, skipped));
      var answered := Undetermined();
      if !answered {
        sys', steps' := Extend(sys', steps', start, Crash(options.workerId));
        return Failure(ConnectionLost), sys', steps';
      }
      ghost var taken := Claimed(sys.outbox.rows, sys.outbox.now, 1, skipped);
      ClaimTakesOldest(sys.outbox.rows, sys.outbox.now, 1, skipped);
      MessagesOfClaim(taken, sys.outbox.rows);
      if claimed.value == {} {
        return Success(None), sys', steps';
      }
      var message := OnlyMessage(claimed.value, taken, sys.outbox.rows);
      return Success(Some(message)), sys', steps';
    }

    /** The claim of one turn of the loop, after what others did since the last. */
    method ClaimNext(ghost sys: System, ghost steps: seq<Step>, ghost start: System)
        returns (claim: Result<Option<Message>, RepositoryError>, ghost sys': System, ghost steps': seq<Step>)
      requires Tracks(sys, steps, start) && options.workerId !in sys.holding
      modifies repository
      ensures Tracks(sys', steps', start) && LogOf(sys'.log, options.workerId) == LogOf(sys.log, options.workerId)
      ensures if claim.Success? && claim.value.Some?
        then options.workerId in sys'.holding && sys'.holding[options.workerId] == claim.value.value && UpToDate(claim.value.value, sys')
        else options.workerId !in sys'.holding
    {
      sys', steps' := Yield(sys, steps, start);
      claim, sys', steps' := ClaimOne(sys', steps', start);
    }

    /** The message was published although the worker does not know it. */
    ghost predicate PublishedUnawares(message: Message, sys: System, sys': System) {
      && LogOf(sys'.log, options.workerId) == LogOf(sys.log, options.workerId) + [Entry(options.workerId, message.id, Published)]
      && message.id in sys'.outbox.rows && sys'.outbox.rows[message.id].publishedAt.Some?
    }

    /** publish and markPublished: either may fail, and the mark may take effect before it fails. */
    method TryPublish(message: Message, ghost sys: System, ghost steps: seq<Step>, ghost start: System)
        returns (delivered: bool, ghost sys': System, ghost steps': seq<Step>)
      requires Tracks(sys, steps, start) && options.workerId in sys.holding && sys.holding[options.workerId] == message
      modifies repository
      ensures Tracks(sys', steps', start)
      ensures delivered ==> options.workerId !in sys'.holding
      ensures delivered ==>
        && LogOf(sys'.log, options.workerId) == LogOf(sys.log, options.workerId) + [Entry(options.workerId, message.id, Published)]
        && message.id in sys'.outbox.rows && sys'.outbox.rows[message.id].publishedAt.Some?
      ensures !delivered ==> options.workerId in sys'.holding && sys'.holding[options.workerId] == message
      ensures !delivered ==> sys' == sys || PublishedUnawares(message, sys, sys')
    {
      delivered := Undetermined();
      sys', steps' := sys, steps;
      if delivered {
        var publishedAt: int := *;
        var marked := repository.MarkPublished(message.id, options.workerId, publishedAt);
        var answered := Undetermined();
        delivered := marked.Success? && answered;
        LogOfAppend(sys.log, Entry(options.workerId, message.id, Published), options.workerId);
        if delivered {
          sys', steps' := Extend(sys, steps, start, Acknowledge(options.workerId, publishedAt));
        } else {
          sys', steps' := Extend(sys, steps, start, LostAcknowledge(options.workerId, publishedAt));
        }
      }
    }

    /** Schedule a retry, or dead-letter at the last permitted attempt.  None when markFailed throws,
        before or after taking effect. */
    method RecordFailure(message: Message, ghost sys: System, ghost steps: seq<Step>, ghost start: System)
        returns (outcome: Option<Outcome>, failedAt: int, ghost sys': System, ghost steps': seq<Step>)
      requires Tracks(sys, steps, start) && options.workerId in sys.holding && sys.holding[options.workerId] == message
      requires UpToDate(message, sys)
      modifies repository
      ensures Tracks(sys', steps', start) && options.workerId !in sys'.holding
      ensures outcome.None? ==> Marked(message, failedAt, sys, sys') || sys'.log == sys.log
      ensures outcome.Some? ==> Marked(message, failedAt, sys, sys') && outcome.value == OutcomeOf(message, options)
      ensures message.id in sys.outbox.rows && sys.outbox.rows[message.id].Settled() ==> outcome.None? && sys'.log == sys.log
    {
      var attempt := message.retryCount + 1;
      failedAt := *;
      var random: real, error: string := *, *;
      var isDeadLetter := attempt >= options.maximumAttempts;
      RetryDelayBounds(attempt, options.baseRetryDelayMs, options.maximumRetryDelayMs, random, failedAt);
      var delayMs := CalculateRetryDelayMs(attempt, options.baseRetryDelayMs, options.maximumRetryDelayMs, random).value;
      var failed := repository.MarkFailed(message.id, options.workerId, NormalizeError(error), failedAt + delayMs,
                                          if isDeadLetter then Some(failedAt) else None);
      var answered := Undetermined();
      sys', steps' := Extend(sys, steps, start, GiveUp(options.workerId, NormalizeError(error), failedAt, delayMs));
      GiveUpIsMarked(sys, GiveUp(options.workerId, NormalizeError(error), failedAt, delayMs), options);
      if failed.Failure? || !answered {
        return None, failedAt, sys', steps';
      }
      outcome := Some(if isDeadLetter then DeadLettered else Retried);
    }

    /** The worker's log grew by the failure of this message, and the row says so. */
    ghost predicate Marked(message: Message, failedAt: int, sys: System, sys': System) {
      && LogOf(sys'.log, options.workerId) == LogOf(sys.log, options.workerId) + [Entry(options.workerId, message.id, OutcomeOf(message, options))]
      && message.id in sys'.outbox.rows
      && Failed(sys'.outbox.rows[message.id], message.retryCount, options, failedAt)
    }

    /** The catch block: rethrow when aborted, otherwise record the failure. */
    method HandleFailure(message: Message, ghost sys: System, ghost steps: seq<Step>, ghost start: System)
        returns (outcome: Option<Outcome>, failedAt: int, ghost sys': System, ghost steps': seq<Step>)
      requires Tracks(sys, steps, start) && options.workerId in sys.holding && sys.holding[options.workerId] == message
      requires UpToDate(message, sys)
      modifies repository
      ensures Tracks(sys', steps', start) && options.workerId !in sys'.holding
      ensures LogOf(sys'.log, options.workerId) == LogOf(sys.log, options.workerId) + [Entry(options.workerId, message.id, OutcomeOf(message, options))]
           || (outcome.None? && LogOf(sys'.log, options.workerId) == LogOf(sys.log, options.workerId))
      ensures outcome.Some? ==> outcome.value == OutcomeOf(message, options)
      ensures LastFailureStands(LogOf(sys.log, options.workerId), LogOf(sys'.log, options.workerId), sys'.outbox.rows, options, failedAt)
      ensures message.id in sys.outbox.rows && sys.outbox.rows[message.id].Settled() ==>
        outcome.None? && LogOf(sys'.log, options.workerId) == LogOf(sys.log, options.workerId)
    {
      sys', steps' := Yield(sys, steps, start);
      var aborted := Undetermined();
      if aborted {
        sys', steps' := Extend(sys', steps', start, Crash(options.workerId));
        return None, 0, sys', steps';
      }
      outcome, failedAt, sys', steps' := RecordFailure(message, sys', steps', start);
    }

    /** One message: publish it and mark it published, or go through the catch block. */
    method Attempt(message: Message, ghost sys: System, ghost steps: seq<Step>, ghost start: System)
        returns (outcome: Option<Outcome>, failedAt: int, ghost sys': System, ghost steps': seq<Step>)
      requires Tracks(sys, steps, start) && options.workerId in sys.holding && sys.holding[options.workerId] == message
      requires UpToDate(message, sys)
      modifies repository
      ensures Tracks(sys', steps', start) && options.workerId !in sys'.holding
      ensures LogGrewAtMostOnce(LogOf(sys.log, options.workerId), LogOf(sys'.log, options.workerId), message.id, outcome)
      ensures LastFailureStands(LogOf(sys.log, options.workerId), LogOf(sys'.log, options.workerId), sys'.outbox.rows, options, failedAt)
    {
      failedAt := 0;
      var delivered;
      sys', steps' := Yield(sys, steps, start);
      delivered, sys', steps' := TryPublish(message, sys', steps', start);
      if delivered {
        outcome := Some(Published);
      } else {
        outcome, failedAt, sys', steps' := HandleFailure(message, sys', steps', start);
      }
    }

    /** The worker's log grew by this outcome of this message, or, the outcome being unknown, by at most one entry. */
    ghost predicate LogGrewAtMostOnce(before: seq<Entry>, after: seq<Entry>, id: RowId, outcome: Option<Outcome>) {
      match outcome
      case Some(known) => after == before + [Entry(options.workerId, id, known)]
      case None => after == before || (|after| == |before| + 1 && before <= after)
    }

    /** `failedAt` is the clock reading of the failure that ended the run, if one did. */
    method RunOnce(ghost start: System) returns (result: RunResult, failedAt: int, ghost sys: System, ghost steps: seq<Step>)
      requires options.Valid() && start.outbox == repository.State() && options.workerId !in start.holding
      modifies repository
      ensures Tracks(sys, steps, start) && options.workerId !in sys.holding
      ensures match result
        case Completed(claimed, published, retried, deadLettered) =>
          && claimed == published + retried + deadLettered <= options.batchSize
          && LogGrewBy(LogOf(start.log, options.workerId), LogOf(sys.log, options.workerId), published, retried, deadLettered)
        case Threw => LogGrew(LogOf(start.log, options.workerId), LogOf(sys.log, options.workerId))
      ensures LastFailureStands(LogOf(start.log, options.workerId), LogOf(sys.log, options.workerId), sys.outbox.rows, options, failedAt)
    {
      failedAt := 0;
      var claimed, published, retried, deadLettered := 0, 0, 0, 0;
      ghost var before := LogOf(start.log, options.workerId);
      sys, steps := start, [];
      var index := 0;
      while index < options.batchSize
        invariant 0 <= index <= options.batchSize
        invariant claimed == published == index && retried == 0 && deadLettered == 0
        invariant Tracks(sys, steps, start) && options.workerId !in sys.holding
        invariant LogGrewBy(before, LogOf(sys.log, options.workerId), published, 0, 0)
      {
        var aborted := Undetermined();
        if aborted {
          return Threw, failedAt, sys, steps;
        }
        var claim;
        claim, sys, steps := ClaimNext(sys, steps, start);
        if claim.Failure? {
          return Threw, failedAt, sys, steps;
        }
        if claim.value.None? {
          break;
        }
        claimed := claimed + 1;
        var outcome;
        ghost var mine := LogOf(sys.log, options.workerId);
        outcome, failedAt, sys, steps := Attempt(claim.value.value, sys, steps, start);
        if outcome.None? {
          return Threw, failedAt, sys, steps;
        }
        LogGrewOnce(before, mine, published, Entry(options.workerId, claim.value.value.id, outcome.value));
        if outcome.value == Published {
          published := published + 1;
        } else {
          if outcome.value == DeadLettered {
            deadLettered := deadLettered + 1;
          } else {
            retried := retried + 1;
          }
          break;
        }
        index := index + 1;
      }
      result := Completed(claimed, published, retried, deadLettered);
    }
  }

  /** Giving up sends the failure mark and lets the message go; if the worker owned the row, the log and the
      row tell of the failure. */
  lemma GiveUpIsMarked(sys: System, step: Step, options: Options)
    requires options.Valid() && step.GiveUp? && step.worker in sys.holding
    ensures var next, m := Perform(sys, step, options.maximumAttempts), sys.holding[step.worker];
      && next.outbox == Apply(sys.outbox, FailureMark(m, step, options.maximumAttempts)) && step.worker !in next.holding
      && if !Owns(sys.outbox.rows, m.id, step.worker) then next.log == sys.log
         else
           && LogOf(next.log, step.worker) == LogOf(sys.log, step.worker) + [Entry(step.worker, m.id, OutcomeOf(m, options))]
           && m.id in next.outbox.rows
           && (sys.outbox.rows[m.id].retryCount == m.retryCount && Within(options, step.failedAt + step.delay, step.failedAt, m.retryCount) ==>
                 Failed(next.outbox.rows[m.id], m.retryCount, options, step.failedAt))
  {
    var m := sys.holding[step.worker];
    LogOfAppend(sys.log, Entry(step.worker, m.id, OutcomeOf(m, options)), step.worker);
  }

  lemma MessagesOfClaim(taken: set<RowId>, rows: Table)
    requires taken <= rows.Keys
    ensures taken != {} ==> Messages(rows, taken) != {}
  {
    if taken != {} {
      var id :| id in taken;
      assert ToMessage(id, rows[id]) in Messages(rows, taken);
    }
  }

  /** The single row a claim of one returns. */
  method OnlyMessage(messages: set<Message>, ghost taken: set<RowId>, ghost rows: Table) returns (m: Message)
    requires taken <= rows.Keys && |taken| <= 1 && messages == Messages(rows, taken) && messages != {}
    ensures taken != {} && m == ToMessage(Sole(taken), rows[Sole(taken)])
  {
    m :| m in messages;
  }
}
