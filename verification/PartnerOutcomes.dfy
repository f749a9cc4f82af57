/** When each partner operation succeeds in a reachable state, and what it then has done. */
module PartnerOutcomes {
  import opened Wrappers
  import opened SetBasics
  import opened PartnerDelivery
  import opened PartnerRuns

  /** The delivery belongs to this partner profile. */
  ghost predicate BelongsTo(db: Database, operationId: string, profile: Profile) {
    && operationId in db.deliveries
    && var owner := db.deliveries[operationId].profile;
       && owner.profileId == profile.profileId && owner.partner == profile.partner
       && owner.purpose == profile.purpose && owner.tenantId == profile.tenantId
  }

  /** The delivery belongs to this profile and carries this provider request id. */
  ghost predicate Carries(db: Database, operationId: string, profile: Profile, providerId: ProviderId) {
    BelongsTo(db, operationId, profile) && db.deliveries[operationId].providerId == Some(providerId)
  }

  /** Nothing but this row is different. */
  ghost predicate OnlyRowChanged(db: Database, next: Database, operationId: string, row: DeliveryRow) {
    next.callbacks == db.callbacks && next.deliveries == db.deliveries[operationId := row]
  }

  // ---------- which profiles and requests are valid ----------

  ghost predicate LetterOrDigit(c: char) {
    'a' <= c <= 'z' || 'A' <= c <= 'Z' || '0' <= c <= '9'
  }

  ghost const PURPOSES: set<(Partner, Purpose)> := {
    (Emergency, EmergencyCoordination), (Traffic, TrafficCoordination), (RoadOperator, TrafficCoordination),
    (Insurance, InsuranceCoordination), (Towing, TowingCoordination), (Routing, RouteCoordination)}

  /** A profile names a tenant and itself, the latter in letters, digits and, after the first, four punctuation
      marks; it is for simulation only, and for the one purpose of its partner. */
  lemma ValidProfileMeans(p: Profile)
    ensures ValidProfile(p) <==>
      && p.simulationOnly && (p.partner, p.purpose) in PURPOSES && 1 <= |p.tenantId| <= 128
      && 1 <= |p.profileId| <= 128 && LetterOrDigit(p.profileId[0])
      && forall c | c in p.profileId :: LetterOrDigit(c) || c in {'.', '_', ':', '-'}
  {
    forall c ensures TokenChar(c) <==> LetterOrDigit(c) || c in {'.', '_', ':', '-'} {
      PunctuationIs(c);
    }
    if p.profileId != [] {
      PunctuationIs(p.profileId[0]);
      assert p.profileId[0] in p.profileId;
    }
  }

  lemma PunctuationIs(c: char)
    ensures c in "._:-" <==> c in {'.', '_', ':', '-'}
  {
    assert "._:-" == ['.', '_', ':', '-'];
  }

  lemma CarrierFound(db: Database, profile: Profile, providerId: ProviderId, operationId: string)
    requires Inv(db)
    ensures Carries(db, operationId, profile, providerId) <==> ByProvider(db, profile, providerId) == {operationId}
    ensures Carries(db, operationId, profile, providerId) ==> providerId == Simulated(profile.profileId, operationId)
  {
    if Carries(db, operationId, profile, providerId) {
      FindsItsRow(db, profile, providerId, operationId);
    } else {
      assert operationId !in ByProvider(db, profile, providerId);
    }
  }

  lemma FoundCarry(db: Database, profile: Profile, providerId: ProviderId)
    ensures forall o | o in ByProvider(db, profile, providerId) :: Carries(db, o, profile, providerId)
    ensures |ByProvider(db, profile, providerId)| == 1 ==> Carries(db, Sole(ByProvider(db, profile, providerId)), profile, providerId)
  {
    if |ByProvider(db, profile, providerId)| == 1 {
      assert Sole(ByProvider(db, profile, providerId)) in ByProvider(db, profile, providerId);
    }
  }

  // ---------- cancellation ----------

  ghost predicate MayBeCancelled(row: DeliveryRow, reason: string, cancelledAt: int) {
    || (row.state == Cancelled && row.reason == Some(reason))
    || (row.state in {Accepted, Acknowledged} && cancelledAt >= row.updatedAt)
  }

  /** The row cancelled for this reason; one that was already stays as it is. */
  ghost function AfterCancel(row: DeliveryRow, reason: string, cancelledAt: int): DeliveryRow {
    if row.state == Cancelled then row else row.(state := Cancelled, reason := Some(reason), updatedAt := cancelledAt)
  }

  lemma CancelOne(db: Database, profile: Profile, providerId: ProviderId, reason: string, cancelledAt: int, operationId: string)
    requires Inv(db) && Carries(db, operationId, profile, providerId)
    ensures var (next, reply) := Cancel(db, profile, providerId, reason, cancelledAt);
      var row := db.deliveries[operationId];
      && (reply.Success? <==> ValidProfile(profile) && 1 <= |reason| <= 500 && MayBeCancelled(row, reason, cancelledAt))
      && (reply.Failure? ==> next == db)
      && (reply.Success? ==>
            var after := AfterCancel(row, reason, cancelledAt);
            OnlyRowChanged(db, next, operationId, after) && reply == Success(StatusReply(operationId, after)))
  {
    CarrierFound(db, profile, providerId, operationId);
    assert RowInv(operationId, db.deliveries[operationId]);
    assert db.deliveries[operationId := db.deliveries[operationId]] == db.deliveries;
  }

  /** In every reachable state a cancellation with a valid profile and reason succeeds exactly when one row of
      the profile carries the provider request id, and that row is cancelled for this reason already, or is
      accepted or acknowledged and was not updated later.  Then the row is cancelled for exactly this reason,
      from cancelledAt on unless it was before, and nothing else has changed. */
  lemma CancelExactlyWhen(commands: seq<Command>, profile: Profile, providerId: ProviderId, reason: string, cancelledAt: int)
    ensures var db := Run(EMPTY, commands);
      var (next, reply) := Cancel(db, profile, providerId, reason, cancelledAt);
      && (reply.Success? <==>
            ValidProfile(profile) && 1 <= |reason| <= 500
            && exists o :: Carries(db, o, profile, providerId) && MayBeCancelled(db.deliveries[o], reason, cancelledAt))
      && (reply.Failure? ==> next == db)
      && forall o | Carries(db, o, profile, providerId) && reply.Success? ::
           && (forall other | Carries(db, other, profile, providerId) :: other == o)
           && OnlyRowChanged(db, next, o, AfterCancel(db.deliveries[o], reason, cancelledAt))
           && next.deliveries[o].state == Cancelled && next.deliveries[o].reason == Some(reason)
           && reply == Success(StatusReply(o, next.deliveries[o]))
  {
    var db := Run(EMPTY, commands);
    RunKeepsInv(EMPTY, commands);
    if o :| Carries(db, o, profile, providerId) {
      CancelOne(db, profile, providerId, reason, cancelledAt, o);
      forall other | Carries(db, other, profile, providerId) ensures other == o {
        CarrierFound(db, profile, providerId, o);
        CarrierFound(db, profile, providerId, other);
      }
    } else {
      FoundCarry(db, profile, providerId);
    }
  }

  lemma StaysCancelled(db: Database, later: seq<Command>, profile: Profile, providerId: ProviderId, o: string)
    requires Inv(db) && Carries(db, o, profile, providerId) && db.deliveries[o].state == Cancelled
    ensures Inv(Run(db, later)) && Carries(Run(db, later), o, profile, providerId) && Run(db, later).deliveries[o] == db.deliveries[o]
  {
    RunKeepsInv(db, later);
    assert Forward(db.deliveries[o], Run(db, later).deliveries[o]);
  }

  lemma CancelAgain(db: Database, profile: Profile, providerId: ProviderId, o: string, again: string, at: int)
    requires Inv(db) && Carries(db, o, profile, providerId) && ValidProfile(profile)
    requires db.deliveries[o].state == Cancelled && db.deliveries[o].reason.Some? && 1 <= |db.deliveries[o].reason.value| <= 500
    ensures var row := db.deliveries[o];
      var (next, reply) := Cancel(db, profile, providerId, again, at);
      && next == db && (reply.Success? <==> again == row.reason.value) && (reply.Success? ==> reply == Success(StatusReply(o, row)))
  {
    CarrierFound(db, profile, providerId, o);
  }

  /** After a cancellation has succeeded, whatever happens next, the same one gets the same answer at any time,
      one with another reason fails, and neither changes anything. */
  lemma CancelIsIdempotent(commands: seq<Command>, profile: Profile, providerId: ProviderId, reason: string, cancelledAt: int,
                           later: seq<Command>, again: string, at: int)
    requires Cancel(Run(EMPTY, commands), profile, providerId, reason, cancelledAt).1.Success?
    ensures var (cancelled, reply) := Cancel(Run(EMPTY, commands), profile, providerId, reason, cancelledAt);
      var db := Run(cancelled, later);
      && Cancel(db, profile, providerId, again, at).0 == db
      && (again == reason ==> Cancel(db, profile, providerId, again, at).1 == reply)
      && (again != reason ==> Cancel(db, profile, providerId, again, at).1.Failure?)
  {
    var before := Run(EMPTY, commands);
    RunKeepsInv(EMPTY, commands);
    CancelExactlyWhen(commands, profile, providerId, reason, cancelledAt);
    var o :| Carries(before, o, profile, providerId);
    var cancelled := Cancel(before, profile, providerId, reason, cancelledAt).0;
    CancelIsGood(before, profile, providerId, reason, cancelledAt);
    StaysCancelled(cancelled, later, profile, providerId, o);
    CancelAgain(Run(cancelled, later), profile, providerId, o, again, at);
  }

  // ---------- sending ----------

  /** What a send makes of a prepared row; one that was sent before stays as it is. */
  ghost function AfterSend(row: DeliveryRow, operationId: string, sentAt: int): DeliveryRow {
    if row.state != Prepared then row
    else row.(state := Accepted, providerId := Some(Simulated(row.profile.profileId, operationId)), attemptCount := 1,
              acceptedAt := Some(sentAt), updatedAt := sentAt)
  }

  /** In every reachable state a send with a valid profile and operation id succeeds exactly when the delivery
      belongs to the profile and was sent before or not prepared later.  Then it is accepted at the time of its
      first send, nothing else has changed, and the receipt says so. */
  lemma SendExactlyWhen(commands: seq<Command>, profile: Profile, operationId: string, sentAt: int)
    ensures var db := Run(EMPTY, commands);
      var (next, reply) := Send(db, profile, operationId, sentAt);
      && (reply.Success? <==>
            ValidProfile(profile) && 1 <= |operationId| <= 128 && BelongsTo(db, operationId, profile)
            && (db.deliveries[operationId].state == Prepared ==> sentAt >= db.deliveries[operationId].preparedAt))
      && (reply.Failure? ==> next == db)
      && (reply.Success? ==>
            var after := AfterSend(db.deliveries[operationId], operationId, sentAt);
            && OnlyRowChanged(db, next, operationId, after) && after.acceptedAt.Some?
            && reply == Success(ReceiptReply(SendReceipt(operationId, Simulated(profile.profileId, operationId), profile.profileId,
                                                         profile.partner, after.acceptedAt.value))))
  {
    var db := Run(EMPTY, commands);
    RunKeepsInv(EMPTY, commands);
    if operationId in db.deliveries {
      assert RowInv(operationId, db.deliveries[operationId]);
      assert db.deliveries[operationId := db.deliveries[operationId]] == db.deliveries;
    }
  }

  // ---------- preparing ----------

  /** The row holds what this request asks for; it may have been prepared at another time and have moved on. */
  ghost predicate PreparedFor(row: DeliveryRow, profile: Profile, input: PrepareInput) {
    && row.profile == profile && row.requestId == input.requestId && row.idempotencyKey == input.idempotencyKey
    && row.correlationId == input.correlationId && row.causationId == input.causationId && row.projection == input.projection
  }

  /** The fingerprint of a row is that of its own columns. */
  ghost predicate FingerprintAgrees(operationId: string, row: DeliveryRow) {
    row.fingerprint == RequestFingerprint(operationId, row.profile, row.requestId, row.idempotencyKey,
                                          row.correlationId, row.causationId, row.projection)
  }

  ghost predicate FingerprintsAgree(db: Database) {
    forall o | o in db.deliveries :: FingerprintAgrees(o, db.deliveries[o])
  }

  lemma {:induction false} RunKeepsFingerprints(db: Database, commands: seq<Command>)
    requires Inv(db) && FingerprintsAgree(db)
    ensures FingerprintsAgree(Run(db, commands))
    decreases |commands|
  {
    if commands != [] {
      var next := Execute(db, commands[0]).0;
      ExecuteIsGood(db, commands[0]);
      forall o | o in next.deliveries ensures FingerprintAgrees(o, next.deliveries[o]) {
        if o in db.deliveries {
          assert Forward(db.deliveries[o], next.deliveries[o]) && FingerprintAgrees(o, db.deliveries[o]);
        } else {
          NewRowIsPrepared(db, commands[0], o);
          PrepareAddsOwn(db, commands[0].profile, commands[0].input, o);
        }
      }
      RunKeepsFingerprints(next, commands[1..]);
    }
  }

  lemma PrepareAddsOwn(db: Database, profile: Profile, input: PrepareInput, o: string)
    requires o in Prepare(db, profile, input).0.deliveries && o !in db.deliveries
    ensures o == input.operationId
  {
  }

  /** No row has this operation id, and none of this profile this idempotency key. */
  ghost predicate IsNew(db: Database, profile: Profile, input: PrepareInput) {
    && input.operationId !in db.deliveries
    && forall o | o in db.deliveries ::
         db.deliveries[o].profile.profileId != profile.profileId || db.deliveries[o].idempotencyKey != input.idempotencyKey
  }

  lemma ValidPrepareMeans(input: PrepareInput)
    ensures ValidPrepare(input) <==>
      && 16 <= |input.idempotencyKey| <= 128
      && forall text | text in {input.operationId, input.requestId, input.correlationId, input.causationId} :: 1 <= |text| <= 128
  {
  }

  /** In every reachable state a valid request for the profile's own tenant is prepared exactly when it is new,
      or its operation id was prepared for the same profile and request before.  A new one adds a row with the
      request's contents and nothing else; the reply tells the contents of the row. */
  lemma PrepareExactlyWhen(commands: seq<Command>, profile: Profile, input: PrepareInput)
    ensures var db := Run(EMPTY, commands);
      var (next, reply) := Prepare(db, profile, input);
      var o := input.operationId;
      && (reply.Success? <==>
            && ValidProfile(profile) && ValidPrepare(input) && input.sourceTenantId == profile.tenantId
            && (IsNew(db, profile, input) || (o in db.deliveries && PreparedFor(db.deliveries[o], profile, input))))
      && (o in db.deliveries || reply.Failure? ==> next == db)
      && (reply.Success? ==>
            && o in next.deliveries && OnlyRowChanged(db, next, o, next.deliveries[o]) && PreparedFor(next.deliveries[o], profile, input)
            && (o !in db.deliveries ==>
                  var row := next.deliveries[o];
                  row.state == Prepared && row.preparedAt == row.updatedAt == input.preparedAt && row.reason == None)
            && reply == Success(PreparedReply(PreparedRequest(o, profile, input.requestId, input.idempotencyKey, input.correlationId,
                                                              input.causationId, input.projection, next.deliveries[o].preparedAt))))
  {
    var db := Run(EMPTY, commands);
    var o := input.operationId;
    RunKeepsInv(EMPTY, commands);
    RunKeepsFingerprints(EMPTY, commands);
    assert Collides(db, profile, input) <==> !IsNew(db, profile, input);
    if o in db.deliveries {
      assert FingerprintAgrees(o, db.deliveries[o]);
      assert db.deliveries[o := db.deliveries[o]] == db.deliveries;
      if ValidProfile(profile) && ValidPrepare(input) && input.sourceTenantId == profile.tenantId && PreparedFor(db.deliveries[o], profile, input) {
        PrepareFindsRow(db, profile, input, o);
      }
    }
    if Prepare(db, profile, input).1.Success? {
      PrepareMatches(db, profile, input);
    }
  }

  // ---------- callbacks ----------

  /** In every reachable state a valid callback succeeds exactly when a row of the profile carries the provider
      request id, and either its id is logged with the same meaning, or it is new and the row is in the state it
      reports already, or can still move and was not updated later.  Only a new one that moves the row changes
      it, to the state, reason and time it reports. */
  lemma CallbackExactlyWhen(commands: seq<Command>, profile: Profile, input: CallbackInput, o: string)
    requires Carries(Run(EMPTY, commands), o, profile, input.providerId)
    requires ValidProfile(profile) && 1 <= |input.callbackId| <= 128 && (input.reason.Some? ==> 1 <= |input.reason.value| <= 500)
    ensures var db := Run(EMPTY, commands);
      var (next, reply) := HandleCallback(db, profile, input);
      var row, key := db.deliveries[o], CallbackKey(profile.profileId, input.callbackId);
      var reported := match input.state case CallbackAcknowledged => Acknowledged case CallbackCompleted => Completed case CallbackFailed => Failed;
      var meaning := CallbackRow(o, CallbackFingerprint(input.providerId, input.state, input.reason, input.occurredAt));
      && (reply.Success? <==>
            if key in db.callbacks then db.callbacks[key] == meaning
            else row.state == reported || (row.state in {Accepted, Acknowledged} && input.occurredAt >= row.updatedAt))
      && (reply.Failure? || key in db.callbacks ==> next == db)
      && (reply.Success? ==>
            && next.callbacks == db.callbacks[key := meaning]
            && next.deliveries == db.deliveries[o :=
                 if key in db.callbacks || row.state == reported then row
                 else row.(state := reported, reason := input.reason, updatedAt := input.occurredAt)]
            && reply == Success(StatusReply(o, next.deliveries[o])))
  {
    var db := Run(EMPTY, commands);
    RunKeepsInv(EMPTY, commands);
    CarrierFound(db, profile, input.providerId, o);
    assert RowInv(o, db.deliveries[o]);
    assert db.deliveries[o := db.deliveries[o]] == db.deliveries;
  }

  // ---------- whose rows a command touches ----------

  ghost function AboutOf(reply: Reply): string {
    match reply
    case PreparedReply(request) => request.operationId
    case ReceiptReply(receipt) => receipt.operationId
    case StatusReply(operationId, _) => operationId
  }

  /** The outcome leaves this delivery as it was and says nothing of it. */
  ghost predicate LeavesOut(db: Database, outcome: (Database, Result<Reply, LifecycleError>), o: string)
    requires o in db.deliveries
  {
    && o in outcome.0.deliveries && outcome.0.deliveries[o] == db.deliveries[o]
    && (outcome.1.Success? ==> AboutOf(outcome.1.value) != o)
  }

  lemma OthersPrepare(db: Database, profile: Profile, input: PrepareInput, o: string)
    requires o in db.deliveries && !BelongsTo(db, o, profile)
    ensures LeavesOut(db, Prepare(db, profile, input), o)
  {
    PrepareKeepsRow(db, profile, input, o);
    if Prepare(db, profile, input).1.Success? {
      PrepareMatches(db, profile, input);
    }
  }

  lemma OthersCancel(db: Database, profile: Profile, providerId: ProviderId, reason: string, cancelledAt: int, o: string)
    requires o in db.deliveries && !BelongsTo(db, o, profile)
    ensures LeavesOut(db, Cancel(db, profile, providerId, reason, cancelledAt), o)
  {
    FoundCarry(db, profile, providerId);
  }

  lemma OthersCallBack(db: Database, profile: Profile, input: CallbackInput, o: string)
    requires o in db.deliveries && !BelongsTo(db, o, profile)
    ensures LeavesOut(db, HandleCallback(db, profile, input), o)
  {
    FoundCarry(db, profile, input.providerId);
  }

  /** A command of another profile, partner, purpose or tenant never changes a delivery, nor does its answer
      tell anything of it. */
  lemma OthersAreOutOfReach(db: Database, command: Command, o: string)
    requires o in db.deliveries && !BelongsTo(db, o, command.profile)
    ensures LeavesOut(db, Execute(db, command), o)
  {
    match command
    case DoPrepare(profile, input) => OthersPrepare(db, profile, input, o);
    case DoSend(profile, operationId, sentAt) =>
    case DoCancel(profile, providerId, reason, cancelledAt) => OthersCancel(db, profile, providerId, reason, cancelledAt, o);
    case DoCallback(profile, callback) => OthersCallBack(db, profile, callback, o);
  }
}
