/** PostgresIntegrationSandbox as an object over its two tables.  Each operation validates its
    arguments, then works inside one transaction: statements write the tables as they run, and an
    error puts back what BEGIN saw. */
module PartnerSandbox {
  import opened Wrappers
  import opened SetBasics
  import opened PartnerDelivery

  class PostgresIntegrationSandbox {
    var deliveries: map<string, DeliveryRow>
    var callbacks: map<CallbackKey, CallbackRow>
    var begun: Option<Database>

    constructor ()
      ensures Tables() == Database(map[], map[]) && begun == None
    {
      deliveries, callbacks, begun := map[], map[], None;
    }

    function Tables(): Database
      reads this
    {
      Database(deliveries, callbacks)
    }

    method Begin()
      modifies this`begun
      ensures begun == Some(Tables())
    {
      begun := Some(Tables());
    }

    /** COMMIT when the work succeeded, ROLLBACK when it threw. */
    method End(succeeded: bool)
      requires begun.Some?
      modifies this
      ensures Tables() == (if succeeded then old(Tables()) else old(begun).value) && begun == None
    {
      if !succeeded {
        deliveries, callbacks := begun.value.deliveries, begun.value.callbacks;
      }
      begun := None;
    }

    method LockByOperation(profile: Profile, operationId: string) returns (r: Result<DeliveryRow, LifecycleError>)
      ensures if operationId in deliveries && InScope(deliveries[operationId], profile)
        then r == Success(deliveries[operationId]) else r == Failure(NotFound)
    {
      if operationId in deliveries && InScope(deliveries[operationId], profile) {
        return Success(deliveries[operationId]);
      }
      return Failure(NotFound);
    }

    /** The id of the one row in scope that carries this provider request id. */
    method LockByProvider(profile: Profile, providerId: ProviderId) returns (r: Result<string, LifecycleError>)
      ensures r.Success? ==> r.value in deliveries
      ensures var found := ByProvider(Tables(), profile, providerId);
        if |found| == 1 then r.Success? && found == {r.value} else r == Failure(NotFound)
    {
      var found := ByProvider(Tables(), profile, providerId);
      if |found| != 1 {
        return Failure(NotFound);
      }
      var o := Sole(found);
      assert o in found;
      return Success(o);
    }

    // ---------- prepare ----------

    method PrepareWork(profile: Profile, input: PrepareInput) returns (r: Result<Reply, LifecycleError>)
      requires ValidProfile(profile) && ValidPrepare(input) && input.sourceTenantId == profile.tenantId
      modifies this`deliveries
      ensures (Tables(), r) == PartnerDelivery.Prepare(old(Tables()), profile, input)
    {
      if !Collides(Tables(), profile, input) {
        var row := NewRow(profile, input);
        deliveries := deliveries[input.operationId := row];
        return Success(PreparedFrom(input.operationId, row));
      }
      var existing := ExistingFor(Tables(), profile, input);
      if |existing| != 1 {
        return Failure(ConflictingIdentity);
      }
      var o := Sole(existing);
      assert o in existing;
      var row := deliveries[o];
      if o != input.operationId || !InScope(row, profile) || row.idempotencyKey != input.idempotencyKey || row.fingerprint != FingerprintOf(profile, input) {
        return Failure(ReusedWithDifferentSemantics);
      }
      return Success(PreparedFrom(o, row));
    }

    method Prepare(profile: Profile, input: PrepareInput) returns (r: Result<Reply, LifecycleError>)
      modifies this
      ensures (Tables(), r) == PartnerDelivery.Prepare(old(Tables()), profile, input)
    {
      if !ValidProfile(profile) {
        return Failure(InvalidProfile);
      }
      if input.sourceTenantId != profile.tenantId {
        return Failure(TenantMismatch);
      }
      if !ValidPrepare(input) {
        return Failure(InvalidInput);
      }
      Begin();
      r := PrepareWork(profile, input);
      End(r.Success?);
    }

    // ---------- send ----------

    method SendWork(profile: Profile, operationId: string, sentAt: int) returns (r: Result<Reply, LifecycleError>)
      requires ValidProfile(profile) && TextWithin(operationId, 1, 128)
      modifies this`deliveries
      ensures (Tables(), r) == PartnerDelivery.Send(old(Tables()), profile, operationId, sentAt)
    {
      var locked := LockByOperation(profile, operationId);
      if locked.Failure? {
        return Failure(locked.error);
      }
      var row := locked.value;
      if row.providerId.Some? {
        return if row.acceptedAt.Some? then Success(ReceiptFrom(operationId, row)) else Failure(NoReceipt);
      }
      if row.state != Prepared {
        return Failure(NotPrepared);
      }
      if sentAt < row.preparedAt {
        return Failure(TimeWentBack);
      }
      deliveries := deliveries[operationId := row.(
        state := Accepted, providerId := Some(Simulated(profile.profileId, operationId)),
        attemptCount := row.attemptCount + 1, acceptedAt := Some(sentAt), updatedAt := sentAt)];
      return Success(ReceiptFrom(operationId, deliveries[operationId]));
    }

    method Send(profile: Profile, operationId: string, sentAt: int) returns (r: Result<Reply, LifecycleError>)
      modifies this
      ensures (Tables(), r) == PartnerDelivery.Send(old(Tables()), profile, operationId, sentAt)
    {
      if !ValidProfile(profile) {
        return Failure(InvalidProfile);
      }
      if !TextWithin(operationId, 1, 128) {
        return Failure(InvalidInput);
      }
      Begin();
      r := SendWork(profile, operationId, sentAt);
      End(r.Success?);
    }

    // ---------- cancel ----------

    method CancelWork(profile: Profile, providerId: ProviderId, reason: string, cancelledAt: int) returns (r: Result<Reply, LifecycleError>)
      requires ValidProfile(profile) && TextWithin(reason, 1, 500)
      modifies this`deliveries
      ensures (Tables(), r) == PartnerDelivery.Cancel(old(Tables()), profile, providerId, reason, cancelledAt)
    {
      var locked := LockByProvider(profile, providerId);
      if locked.Failure? {
        return Failure(locked.error);
      }
      var o := locked.value;
      var row := deliveries[o];
      if row.state == Cancelled {
        return if row.reason != Some(reason) then Failure(CancelReasonChanged) else Success(StatusReply(o, row));
      }
      if row.state == Completed || row.state == Failed {
        return Failure(AlreadyTerminal);
      }
      if cancelledAt < row.updatedAt {
        return Failure(TimeWentBack);
      }
      deliveries := deliveries[o := row.(state := Cancelled, reason := Some(reason), updatedAt := cancelledAt)];
      return Success(StatusReply(o, deliveries[o]));
    }

    method Cancel(profile: Profile, providerId: ProviderId, reason: string, cancelledAt: int) returns (r: Result<Reply, LifecycleError>)
      modifies this
      ensures (Tables(), r) == PartnerDelivery.Cancel(old(Tables()), profile, providerId, reason, cancelledAt)
    {
      if !ValidProfile(profile) {
        return Failure(InvalidProfile);
      }
      if !TextWithin(reason, 1, 500) {
        return Failure(InvalidInput);
      }
      Begin();
      r := CancelWork(profile, providerId, reason, cancelledAt);
      End(r.Success?);
    }

    // ---------- callbacks ----------

    /** The callback is inserted before the delivery is looked at, so an error here leaves both
        tables half written for the rollback to repair. */
    method HandleCallbackWork(profile: Profile, input: CallbackInput) returns (r: Result<Reply, LifecycleError>)
      requires ValidProfile(profile) && TextWithin(input.callbackId, 1, 128)
      requires input.reason.Some? ==> TextWithin(input.reason.value, 1, 500)
      modifies this`deliveries, this`callbacks
      ensures r == PartnerDelivery.HandleCallback(old(Tables()), profile, input).1
      ensures r.Success? ==> Tables() == PartnerDelivery.HandleCallback(old(Tables()), profile, input).0
    {
      var locked := LockByProvider(profile, input.providerId);
      if locked.Failure? {
        return Failure(locked.error);
      }
      var o := locked.value;
      var row := deliveries[o];
      var key, entry := CallbackKey(profile.profileId, input.callbackId), CallbackRow(o, CallbackFingerprintOf(input));
      if key in callbacks {
        return if callbacks[key] != entry then Failure(CallbackReused) else Success(StatusReply(o, row));
      }
      callbacks := callbacks[key := entry];
      if row.state == input.state.Target() {
        return Success(StatusReply(o, row));
      }
      if row.state.Terminal() {
        return Failure(AlreadyTerminal);
      }
      if input.occurredAt < row.updatedAt {
        return Failure(TimeWentBack);
      }
      deliveries := deliveries[o := row.(state := input.state.Target(), reason := input.reason, updatedAt := input.occurredAt)];
      return Success(StatusReply(o, deliveries[o]));
    }

    method HandleCallback(profile: Profile, input: CallbackInput) returns (r: Result<Reply, LifecycleError>)
      modifies this
      ensures (Tables(), r) == PartnerDelivery.HandleCallback(old(Tables()), profile, input)
    {
      if !ValidProfile(profile) {
        return Failure(InvalidProfile);
      }
      if !TextWithin(input.callbackId, 1, 128) || (input.reason.Some? && !TextWithin(input.reason.value, 1, 500)) {
        return Failure(InvalidInput);
      }
      Begin();
      r := HandleCallbackWork(profile, input);
      End(r.Success?);
    }
  }
}
