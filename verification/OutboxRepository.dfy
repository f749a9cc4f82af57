/** PostgresOutboxRepository: the object through which workers reach outbox_events. */
module OutboxRepository {
  import opened Wrappers
  import opened OutboxTable
  import opened OutboxWorkers

  datatype RepositoryError = InvalidArgument | NoLongerOwned | ConnectionLost

  const MAXIMUM_BATCH_SIZE := 500
  const MAXIMUM_LOCK_MS := 60 * 60 * 1000
  const MAXIMUM_ERROR_LENGTH := 1000

  predicate ValidWorkerId(worker: WorkerId) {
    1 <= |worker| <= 128
  }

  function Truncated(error: string): string {
    if |error| <= MAXIMUM_ERROR_LENGTH then error else error[..MAXIMUM_ERROR_LENGTH]
  }

  class PostgresOutboxRepository {
    var rows: Table
    var now: int
    ghost var leases: map<RowId, seq<Lease>>

    constructor (now: int)
      ensures State() == Empty(now)
    {
      this.rows, this.now, this.leases := map[], now, map[];
    }

    ghost function State(): OutboxTable.State
      reads this
    {
      OutboxTable.State(rows, now, leases)
    }

    /** `skipped` are the rows locked by transactions of others while the query runs. */
    method ClaimBatch(workerId: WorkerId, batchSize: int, lockDurationMs: int, skipped: set<RowId>)
        returns (r: Result<set<Message>, RepositoryError>)
      modifies this
      ensures var valid := ValidWorkerId(workerId) && 1 <= batchSize <= MAXIMUM_BATCH_SIZE && 1 <= lockDurationMs <= MAXIMUM_LOCK_MS;
        if valid then
          var taken := Claimed(old(rows), old(now), batchSize, skipped);
          && State() == Apply(old(State()), Claim(workerId, batchSize, lockDurationMs, skipped))
          && r == Success(Messages(old(rows), taken))
          && forall id | id in old(rows) :: id in rows && rows[id] ==
               if id in taken then old(rows)[id].(lockedBy := Some(workerId), lockedUntil := Some(old(now) + lockDurationMs)) else old(rows)[id]
        else State() == old(State()) && r == Failure(InvalidArgument)
    {
      if !ValidWorkerId(workerId) || !(1 <= batchSize <= MAXIMUM_BATCH_SIZE) || !(1 <= lockDurationMs <= MAXIMUM_LOCK_MS) {
        return Failure(InvalidArgument);
      }
      var taken := Claimed(rows, now, batchSize, skipped);
      var messages := Messages(rows, taken);
      leases := Grant(leases, taken, Lease(workerId, now, now + lockDurationMs, None));
      rows := ClaimRows(rows, now, workerId, batchSize, lockDurationMs, skipped);
      return Success(messages);
    }

    method MarkPublished(messageId: RowId, workerId: WorkerId, publishedAt: int) returns (r: Result<(), RepositoryError>)
      modifies this
      ensures ValidWorkerId(workerId) ==>
        && State() == Apply(old(State()), OutboxTable.MarkPublished(messageId, workerId, publishedAt))
        && (if messageId in old(rows) && old(rows)[messageId].lockedBy == Some(workerId)
               && old(rows)[messageId].publishedAt == None && old(rows)[messageId].deadLetteredAt == None
            then r == Success(()) && rows == old(rows)[messageId := old(rows)[messageId].(
                   publishedAt := Some(publishedAt), lockedBy := None, lockedUntil := None, lastError := None)]
            else r == Failure(NoLongerOwned) && rows == old(rows))
      ensures !ValidWorkerId(workerId) ==> State() == old(State()) && r == Failure(InvalidArgument)
    {
      if !ValidWorkerId(workerId) {
        return Failure(InvalidArgument);
      }
      if !Owns(rows, messageId, workerId) {
        return Failure(NoLongerOwned);
      }
      rows := PublishRow(rows, messageId, workerId, publishedAt);
      leases := Close(leases, messageId, now);
      return Success(());
    }

    method MarkFailed(messageId: RowId, workerId: WorkerId, errorMessage: string, nextAttemptAt: int, deadLetteredAt: Option<int>)
        returns (r: Result<(), RepositoryError>)
      modifies this
      ensures ValidWorkerId(workerId) && errorMessage != "" ==>
        && State() == Apply(old(State()), OutboxTable.MarkFailed(messageId, workerId, Truncated(errorMessage), nextAttemptAt, deadLetteredAt))
        && (if messageId in old(rows) && old(rows)[messageId].lockedBy == Some(workerId)
               && old(rows)[messageId].publishedAt == None && old(rows)[messageId].deadLetteredAt == None
            then r == Success(()) && rows == old(rows)[messageId := old(rows)[messageId].(
                   retryCount := old(rows)[messageId].retryCount + 1, nextAttemptAt := nextAttemptAt, deadLetteredAt := deadLetteredAt,
                   lastError := Some(Truncated(errorMessage)), lockedBy := None, lockedUntil := None)]
            else r == Failure(NoLongerOwned) && rows == old(rows))
      ensures !ValidWorkerId(workerId) || errorMessage == "" ==> State() == old(State()) && r == Failure(InvalidArgument)
    {
      if !ValidWorkerId(workerId) || errorMessage == "" {
        return Failure(InvalidArgument);
      }
      if !Owns(rows, messageId, workerId) {
        return Failure(NoLongerOwned);
      }
      rows := FailRow(rows, messageId, workerId, Truncated(errorMessage), nextAttemptAt, deadLetteredAt);
      leases := Close(leases, messageId, now);
      return Success(());
    }

    /** Whatever the other workers, the producers and the clock do between two statements of
        `worker`.  Callers may rely only on the contract. */
    method OthersAct(ghost sys: System, worker: WorkerId, maximumAttempts: nat) returns (ghost steps: seq<Step>)
      requires sys.outbox == State()
      modifies this
      ensures State() == PerformAll(sys, steps, maximumAttempts).outbox
      ensures forall i | 0 <= i < |steps| :: !ActsFor(steps[i], worker)
    {
      steps := [];
    }
  }
}
