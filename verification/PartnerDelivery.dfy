/** PostgresIntegrationSandbox on values: the rows of integration_deliveries and
    integration_delivery_callbacks, and what one transaction of each operation does to them.

    SHA-256 digests are represented by what they digest, so two fingerprints or provider request
    ids are equal only when the digested material is.  A transaction that raises leaves the tables
    as it found them. */
module PartnerDelivery {
  import opened Wrappers
  import opened SetBasics

  datatype Partner = Emergency | Traffic | RoadOperator | Insurance | Towing | Routing
  datatype Purpose = EmergencyCoordination | TrafficCoordination | InsuranceCoordination | TowingCoordination | RouteCoordination

  function PurposeOf(partner: Partner): Purpose {
    match partner
    case Emergency => EmergencyCoordination
    case Traffic => TrafficCoordination
    case RoadOperator => TrafficCoordination
    case Insurance => InsuranceCoordination
    case Towing => TowingCoordination
    case Routing => RouteCoordination
  }

  datatype Profile = Profile(profileId: string, partner: Partner, purpose: Purpose, tenantId: string, simulationOnly: bool)

  datatype DeliveryState = Prepared | Accepted | Acknowledged | Completed | Failed | Cancelled
  {
    predicate Terminal() {
      Completed? || Failed? || Cancelled?
    }
  }

  datatype CallbackState = CallbackAcknowledged | CallbackCompleted | CallbackFailed
  {
    function Target(): DeliveryState {
      match this
      case CallbackAcknowledged => Acknowledged
      case CallbackCompleted => Completed
      case CallbackFailed => Failed
    }
  }

  datatype ProviderId = Simulated(profileId: string, operationId: string) | Foreign(text: string)

  datatype PrepareInput = PrepareInput(
    operationId: string, requestId: string, idempotencyKey: string, correlationId: string, causationId: string,
    sourceTenantId: string, projection: string, preparedAt: int)

  datatype RequestFingerprint = RequestFingerprint(
    operationId: string, profile: Profile, requestId: string, idempotencyKey: string,
    correlationId: string, causationId: string, projection: string)

  datatype DeliveryRow = DeliveryRow(
    profile: Profile,
    requestId: string,
    idempotencyKey: string,
    fingerprint: RequestFingerprint,
    correlationId: string,
    causationId: string,
    projection: string,
    state: DeliveryState,
    providerId: Option<ProviderId>,
    attemptCount: nat,
    preparedAt: int,
    acceptedAt: Option<int>,
    updatedAt: int,
    reason: Option<string>)

  datatype CallbackInput = CallbackInput(callbackId: string, providerId: ProviderId, state: CallbackState, reason: Option<string>, occurredAt: int)
  datatype CallbackFingerprint = CallbackFingerprint(providerId: ProviderId, state: CallbackState, reason: Option<string>, occurredAt: int)
  datatype CallbackRow = CallbackRow(operationId: string, fingerprint: CallbackFingerprint)
  datatype CallbackKey = CallbackKey(profileId: string, callbackId: string)

  datatype Database = Database(deliveries: map<string, DeliveryRow>, callbacks: map<CallbackKey, CallbackRow>)

  datatype LifecycleError =
    | InvalidProfile | InvalidInput | TenantMismatch | ConflictingIdentity | ReusedWithDifferentSemantics | NotFound
    | NotPrepared | NoReceipt | TimeWentBack | AlreadyTerminal | CancelReasonChanged | CallbackReused

  datatype PreparedRequest = PreparedRequest(
    operationId: string, profile: Profile, requestId: string, idempotencyKey: string,
    correlationId: string, causationId: string, projection: string, preparedAt: int)
  datatype SendReceipt = SendReceipt(operationId: string, providerId: ProviderId, profileId: string, partner: Partner, acceptedAt: int)

  datatype Reply =
    | PreparedReply(request: PreparedRequest)
    | ReceiptReply(receipt: SendReceipt)
    | StatusReply(operationId: string, row: DeliveryRow)

  // ---------- validation ----------

  predicate TokenChar(c: char) {
    'A' <= c <= 'Z' || 'a' <= c <= 'z' || '0' <= c <= '9' || c in "._:-"
  }

  predicate ValidProfile(p: Profile) {
    && 1 <= |p.profileId| <= 128
    && (forall c | c in p.profileId :: TokenChar(c)) && p.profileId[0] !in "._:-"
    && p.simulationOnly
    && p.purpose == PurposeOf(p.partner)
    && 1 <= |p.tenantId| <= 128
  }

  predicate TextWithin(text: string, minimum: nat, maximum: nat) {
    minimum <= |text| <= maximum
  }

  predicate ValidPrepare(input: PrepareInput) {
    && TextWithin(input.operationId, 1, 128) && TextWithin(input.requestId, 1, 128)
    && TextWithin(input.idempotencyKey, 16, 128)
    && TextWithin(input.correlationId, 1, 128) && TextWithin(input.causationId, 1, 128)
  }

  // ---------- queries ----------

  predicate InScope(row: DeliveryRow, profile: Profile) {
    && row.profile.profileId == profile.profileId && row.profile.partner == profile.partner
    && row.profile.purpose == profile.purpose && row.profile.tenantId == profile.tenantId
  }

  /** The rows an INSERT would collide with: the primary key and UNIQUE (profile_id, idempotency_key). */
  predicate Collides(db: Database, profile: Profile, input: PrepareInput) {
    || input.operationId in db.deliveries
    || exists o | o in db.deliveries ::
         db.deliveries[o].profile.profileId == profile.profileId && db.deliveries[o].idempotencyKey == input.idempotencyKey
  }

  function ExistingFor(db: Database, profile: Profile, input: PrepareInput): set<string> {
    set o | o in db.deliveries && (o == input.operationId || (InScope(db.deliveries[o], profile) && db.deliveries[o].idempotencyKey == input.idempotencyKey))
  }

  function ByProvider(db: Database, profile: Profile, providerId: ProviderId): set<string> {
    set o | o in db.deliveries && InScope(db.deliveries[o], profile) && db.deliveries[o].providerId == Some(providerId)
  }

  // ---------- the four operations ----------

  function FingerprintOf(profile: Profile, input: PrepareInput): RequestFingerprint {
    RequestFingerprint(input.operationId, profile, input.requestId, input.idempotencyKey, input.correlationId, input.causationId, input.projection)
  }

  function NewRow(profile: Profile, input: PrepareInput): DeliveryRow {
    DeliveryRow(profile, input.requestId, input.idempotencyKey, FingerprintOf(profile, input), input.correlationId, input.causationId,
                input.projection, Prepared, None, 0, input.preparedAt, None, input.preparedAt, None)
  }

  function PreparedFrom(operationId: string, row: DeliveryRow): Reply {
    PreparedReply(PreparedRequest(operationId, row.profile, row.requestId, row.idempotencyKey, row.correlationId,
                                  row.causationId, row.projection, row.preparedAt))
  }

  function Prepare(db: Database, profile: Profile, input: PrepareInput): (Database, Result<Reply, LifecycleError>) {
    if !ValidProfile(profile) then (db, Failure(InvalidProfile))
    else if input.sourceTenantId != profile.tenantId then (db, Failure(TenantMismatch))
    else if !ValidPrepare(input) then (db, Failure(InvalidInput))
    else if !Collides(db, profile, input) then
      var row := NewRow(profile, input);
      (db.(deliveries := db.deliveries[input.operationId := row]), Success(PreparedFrom(input.operationId, row)))
    else
      var existing := ExistingFor(db, profile, input);
      if |existing| != 1 then (db, Failure(ConflictingIdentity))
      else
        var o := Sole(existing);
        var row := db.deliveries[o];
        if o != input.operationId || !InScope(row, profile) || row.idempotencyKey != input.idempotencyKey
           || row.fingerprint != FingerprintOf(profile, input)
        then (db, Failure(ReusedWithDifferentSemantics))
        else (db, Success(PreparedFrom(o, row)))
  }

  function ReceiptFrom(operationId: string, row: DeliveryRow): Reply
    requires row.providerId.Some? && row.acceptedAt.Some?
  {
    ReceiptReply(SendReceipt(operationId, row.providerId.value, row.profile.profileId, row.profile.partner, row.acceptedAt.value))
  }

  function Send(db: Database, profile: Profile, operationId: string, sentAt: int): (Database, Result<Reply, LifecycleError>) {
    if !ValidProfile(profile) then (db, Failure(InvalidProfile))
    else if !TextWithin(operationId, 1, 128) then (db, Failure(InvalidInput))
    else if operationId !in db.deliveries || !InScope(db.deliveries[operationId], profile) then (db, Failure(NotFound))
    else
      var row := db.deliveries[operationId];
      if row.providerId.Some? then
        (db, if row.acceptedAt.Some? then Success(ReceiptFrom(operationId, row)) else Failure(NoReceipt))
      else if row.state != Prepared then (db, Failure(NotPrepared))
      else if sentAt < row.preparedAt then (db, Failure(TimeWentBack))
      else
        var updated := row.(state := Accepted, providerId := Some(Simulated(profile.profileId, operationId)),
                            attemptCount := row.attemptCount + 1, acceptedAt := Some(sentAt), updatedAt := sentAt);
        (db.(deliveries := db.deliveries[operationId := updated]), Success(ReceiptFrom(operationId, updated)))
  }

  function Cancel(db: Database, profile: Profile, providerId: ProviderId, reason: string, cancelledAt: int): (Database, Result<Reply, LifecycleError>) {
    if !ValidProfile(profile) then (db, Failure(InvalidProfile))
    else if !TextWithin(reason, 1, 500) then (db, Failure(InvalidInput))
    else if |ByProvider(db, profile, providerId)| != 1 then (db, Failure(NotFound))
    else
      var o := Sole(ByProvider(db, profile, providerId));
      var row := db.deliveries[o];
      if row.state == Cancelled then
        (db, if row.reason != Some(reason) then Failure(CancelReasonChanged) else Success(StatusReply(o, row)))
      else if row.state == Completed || row.state == Failed then (db, Failure(AlreadyTerminal))
      else if cancelledAt < row.updatedAt then (db, Failure(TimeWentBack))
      else
        var updated := row.(state := Cancelled, reason := Some(reason), updatedAt := cancelledAt);
        (db.(deliveries := db.deliveries[o := updated]), Success(StatusReply(o, updated)))
  }

  function CallbackFingerprintOf(input: CallbackInput): CallbackFingerprint {
    CallbackFingerprint(input.providerId, input.state, input.reason, input.occurredAt)
  }

  function HandleCallback(db: Database, profile: Profile, input: CallbackInput): (Database, Result<Reply, LifecycleError>) {
    if !ValidProfile(profile) then (db, Failure(InvalidProfile))
    else if !TextWithin(input.callbackId, 1, 128) || (input.reason.Some? && !TextWithin(input.reason.value, 1, 500)) then (db, Failure(InvalidInput))
    else if |ByProvider(db, profile, input.providerId)| != 1 then (db, Failure(NotFound))
    else
      var o := Sole(ByProvider(db, profile, input.providerId));
      var row := db.deliveries[o];
      var key := CallbackKey(profile.profileId, input.callbackId);
      var entry := CallbackRow(o, CallbackFingerprintOf(input));
      if key in db.callbacks then
        (db, if db.callbacks[key] != entry then Failure(CallbackReused) else Success(StatusReply(o, row)))
      else
        var logged := db.(callbacks := db.callbacks[key := entry]);
        if row.state == input.state.Target() then (logged, Success(StatusReply(o, row)))
        else if row.state.Terminal() then (db, Failure(AlreadyTerminal))
        else if input.occurredAt < row.updatedAt then (db, Failure(TimeWentBack))
        else
          var updated := row.(state := input.state.Target(), reason := input.reason, updatedAt := input.occurredAt);
          (logged.(deliveries := db.deliveries[o := updated]), Success(StatusReply(o, updated)))
  }
}
