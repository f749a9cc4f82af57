/** FieldSafetyCompanionController and the simulated gateway, as the objects the app uses. */
module FieldCompanion {
  import opened Wrappers
  import opened FieldQueue
  import opened FieldRuns

  datatype CompanionError = NotReady | QueueFull | Unavailable

  class SimulatedFieldCompanionGateway {
    var deliveries: seq<Operation>
    var receipts: map<string, Receipt>

    constructor ()
      ensures Value() == Gateway([], map[])
    {
      deliveries, receipts := [], map[];
    }

    function Value(): Gateway
      reads this
    {
      Gateway(deliveries, receipts)
    }

    method Deliver(op: Operation, up: bool) returns (r: Result<Receipt, CompanionError>)
      modifies this
      ensures if up then
          Value() == FieldQueue.Deliver(old(Value()), op).0 && r == Success(FieldQueue.Deliver(old(Value()), op).1)
        else Value() == old(Value()) && r == Failure(Unavailable)
      ensures up && op.key in old(receipts) ==>
        Value() == old(Value()) && r == Success(old(receipts)[op.key].(disposition := Duplicate))
      ensures up && op.key !in old(receipts) ==>
        r.Success? && deliveries == old(deliveries) + [op] && receipts == old(receipts)[op.key := r.value]
    {
      if !up {
        return Failure(Unavailable);
      }
      if op.key in receipts {
        return Success(receipts[op.key].(disposition := Duplicate));
      }
      deliveries := deliveries + [op];
      var receipt := FirstReceipt(op);
      receipts := receipts[op.key := receipt];
      return Success(receipt);
    }
  }

  /** The readings left after the first n. */
  function Later(clock: Clock, n: nat): Clock {
    (i: nat) => clock(i + n)
  }

  class FieldSafetyCompanionController {
    const identity: Identity
    const gateway: SimulatedFieldCompanionGateway
    var storage: Option<Persisted>
    var current: Option<Companion>

    /** A new process over what storage holds; not booted yet. */
    constructor (identity: Identity, gateway: SimulatedFieldCompanionGateway, storage: Option<Persisted>)
      ensures this.identity == identity && this.gateway == gateway && this.storage == storage && current == None
    {
      this.identity, this.gateway, this.storage, this.current := identity, gateway, storage, None;
    }

    method Persist(savedAt: int)
      requires current.Some?
      modifies this`storage
      ensures storage == Some(Persisted(identity, savedAt, current.value))
    {
      storage := Some(Persisted(identity, savedAt, current.value));
    }

    method Enqueue(op: Operation) returns (r: Result<(), CompanionError>)
      requires current.Some?
      modifies this`current
      ensures if |old(current).value.pending| >= MAX_QUEUE then r == Failure(QueueFull) && current == old(current)
        else r == Success(()) && current == Some(old(current).value.(pending := old(current).value.pending + [op]))
    {
      if |current.value.pending| >= MAX_QUEUE {
        return Failure(QueueFull);
      }
      current := Some(current.value.(pending := current.value.pending + [op]));
      return Success(());
    }

    /** The loop over pending: deliver, acknowledge, or keep for a retry. */
    method DeliverPending(clock: Clock, up: nat -> bool)
        returns (remaining: seq<Operation>, acknowledged: seq<string>)
      requires current.Some?
      modifies this`current, gateway
      ensures var c := old(current).value;
        var f := FlushFirst(c, old(gateway.Value()), |c.pending|, clock, up);
        && gateway.Value() == f.gateway && remaining == f.remaining && acknowledged == f.acknowledged
        && current == Some(c.(session := f.session))
    {
      var c := current.value;
      ghost var before := gateway.Value();
      remaining, acknowledged := [], c.acknowledged;
      var i := 0;
      while i < |c.pending|
        invariant 0 <= i <= |c.pending|
        invariant current.Some? && current.value == c.(session := current.value.session)
        invariant FlushFirst(c, before, i, clock, up) == Flushing(gateway.Value(), current.value.session, acknowledged, remaining, false)
      {
        var operation := c.pending[i];
        if operation.expiresAt > clock(i) && operation.key !in acknowledged {
          var delivered := gateway.Deliver(operation, up(i));
          match delivered
          case Success(receipt) =>
            acknowledged := AddKey(acknowledged, receipt.key);
            current := Some(current.value.(session := ApplyReceipt(current.value.session, c.network, receipt)));
          case Failure(_) =>
            remaining := remaining + [Retried(operation)];
            if c.network == Degraded {
              StoppedStays(c, before, i + 1, clock, up);
              return;
            }
        }
        i := i + 1;
      }
    }

    method Flush(clock: Clock, up: nat -> bool) returns (r: Result<(), CompanionError>)
      modifies this, gateway
      ensures old(current).None? ==> r == Failure(NotReady) && current == None
      ensures old(current).None? || old(current).value.network == Offline ==>
        storage == old(storage) && current == old(current) && gateway.Value() == old(gateway.Value())
      ensures old(current).Some? ==>
        && r == Success(()) && current.Some?
        && (current.value, gateway.Value()) == FieldQueue.Flush(old(current).value, old(gateway.Value()), clock, up)
      ensures old(current).Some? && old(current).value.network != Offline ==>
        storage == Some(Persisted(identity, clock(2 * |old(current).value.pending|), current.value))
    {
      if current.None? {
        return Failure(NotReady);
      }
      if current.value.network == Offline {
        return Success(());
      }
      var c := current.value;
      var remaining, acknowledged := DeliverPending(clock, up);
      var unprocessed := Unprocessed(c, remaining, acknowledged, 0, clock);
      current := Some(current.value.(pending := UniqueOperations(remaining + unprocessed), acknowledged := LastKeys(acknowledged)));
      Persist(clock(2 * |c.pending|));
      return Success(());
    }

    /** Start from what is saved when it is valid, otherwise afresh, then flush unless offline. */
    method Boot(language: Language, clock: Clock, up: nat -> bool)
      modifies this, gateway
      ensures var saved := old(storage);
        var valid := saved.Some? && saved.value.identity == identity
          && clock(0) - saved.value.savedAt <= 24 * 60 * 60 * 1000 && |saved.value.state.pending| <= 100;
        var started :=
          if !valid then Companion(Session(language, ConsentPending, Ready, NotRequested, [Yes, No, ReplyOption.Unknown], true, false), Online, [], [])
          else
            var (state, phase) := (saved.value.state, saved.value.state.session.phase);
            state.(session := state.session.(
              phase := if phase in {OperatorTakeover, HumanReview, CompletedPhase} then phase else if state.network == Offline then OfflinePhase else Ready));
        && current.Some?
        && (current.value, gateway.Value()) == FieldQueue.Flush(started, old(gateway.Value()), Later(clock, 2), up)
        && storage == if started.network == Offline then old(storage)
                      else Some(Persisted(identity, clock(2 + 2 * |started.pending|), current.value))
    {
      if storage.Some? && ValidPersisted(storage.value, identity, clock(0)) {
        current := Some(Restored(storage.value.state));
      } else {
        current := Some(InitialCompanion(language));
        Persist(clock(1));
      }
      if current.value.network != Offline {
        var _ := Flush(Later(clock, 2), up);
      }
    }

    method SetConsent(granted: bool, operationId: string, key: string, clock: Clock, up: nat -> bool)
        returns (r: Result<(), CompanionError>)
      modifies this, gateway
      ensures old(current).None? ==> r == Failure(NotReady)
      ensures old(current).Some? && |old(current).value.pending| >= MAX_QUEUE ==> r == Failure(QueueFull)
      ensures r.Failure? ==> current == old(current) && storage == old(storage) && gateway.Value() == old(gateway.Value())
      ensures old(current).Some? && |old(current).value.pending| < MAX_QUEUE ==>
        var c := old(current).value;
        var queued := c.(pending := c.pending + [Operation(operationId, key, Consent(granted), clock(1), clock(1) + 24 * 60 * 60 * 1000, 0)],
                         session := AfterConsent(c.session, c.network, granted, clock(0)));
        && r == Success(()) && current.Some?
        && (current.value, gateway.Value()) == FieldQueue.Flush(queued, old(gateway.Value()), Later(clock, 3), up)
        && storage == Some(Persisted(identity, if c.network == Offline then clock(2) else clock(3 + 2 * |queued.pending|), current.value))
    {
      if current.None? {
        return Failure(NotReady);
      }
      var occurredAt := clock(0);
      var queued := Enqueue(NewOperation(operationId, key, Consent(granted), clock(1)));
      if queued.Failure? {
        return queued;
      }
      current := Some(current.value.(session := AfterConsent(current.value.session, current.value.network, granted, occurredAt)));
      Persist(clock(2));
      if current.value.network != Offline {
        var _ := Flush(Later(clock, 3), up);
      }
      return Success(());
    }
  }

  /** After the break nothing changes any more. */
  lemma {:induction false} StoppedStays(c: Companion, gateway: Gateway, n: nat, clock: Clock, up: nat -> bool)
    requires n <= |c.pending| && FlushFirst(c, gateway, n, clock, up).stopped
    ensures FlushFirst(c, gateway, |c.pending|, clock, up) == FlushFirst(c, gateway, n, clock, up)
    decreases |c.pending| - n
  {
    if n < |c.pending| {
      StoppedStays(c, gateway, n + 1, clock, up);
    }
  }
}
