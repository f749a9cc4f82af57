/** What every run of partner operations keeps: delivery rows only move forward, receipts and
    callback bindings never change, and the database's own guards never fire. */
module PartnerRuns {
  import opened Wrappers
  import opened SetBasics
  import opened PartnerDelivery

  datatype Command =
    | DoPrepare(profile: Profile, input: PrepareInput)
    | DoSend(profile: Profile, operationId: string, sentAt: int)
    | DoCancel(profile: Profile, providerId: ProviderId, reason: string, cancelledAt: int)
    | DoCallback(profile: Profile, callback: CallbackInput)

  function Execute(db: Database, command: Command): (Database, Result<Reply, LifecycleError>) {
    match command
    case DoPrepare(profile, input) => Prepare(db, profile, input)
    case DoSend(profile, operationId, sentAt) => Send(db, profile, operationId, sentAt)
    case DoCancel(profile, providerId, reason, cancelledAt) => Cancel(db, profile, providerId, reason, cancelledAt)
    case DoCallback(profile, callback) => HandleCallback(db, profile, callback)
  }

  function Run(db: Database, commands: seq<Command>): Database
    decreases |commands|
  {
    if commands == [] then db else Run(Execute(db, commands[0]).0, commands[1..])
  }

  const EMPTY := Database(map[], map[])

  // ---------- rows ----------

  /** The transport columns are set together, by the one send that accepted the delivery. */
  ghost predicate RowInv(operationId: string, row: DeliveryRow) {
    && (row.state == Prepared <==> row.providerId.None?)
    && (row.providerId.Some? <==> row.acceptedAt.Some?)
    && row.attemptCount == (if row.providerId.Some? then 1 else 0)
    && (row.providerId.Some? ==> row.providerId.value == Simulated(row.profile.profileId, operationId))
    && (if row.acceptedAt.Some? then row.preparedAt <= row.acceptedAt.value <= row.updatedAt else row.updatedAt == row.preparedAt)
  }

  /** UNIQUE (profile_id, idempotency_key) */
  ghost predicate KeysDistinct(db: Database) {
    forall a, b | a in db.deliveries && b in db.deliveries && a != b ::
      db.deliveries[a].profile.profileId != db.deliveries[b].profile.profileId || db.deliveries[a].idempotencyKey != db.deliveries[b].idempotencyKey
  }

  ghost predicate RowsValid(db: Database) {
    forall o | o in db.deliveries :: RowInv(o, db.deliveries[o])
  }

  ghost predicate LogValid(db: Database) {
    forall key | key in db.callbacks ::
      && db.callbacks[key].operationId in db.deliveries
      && db.deliveries[db.callbacks[key].operationId].profile.profileId == key.profileId
      && db.deliveries[db.callbacks[key].operationId].providerId.Some?
  }

  ghost predicate Inv(db: Database) {
    KeysDistinct(db) && RowsValid(db) && LogValid(db)
  }

  /** How a delivery row may change. */
  ghost predicate Forward(before: DeliveryRow, after: DeliveryRow) {
    && after == before.(state := after.state, providerId := after.providerId, attemptCount := after.attemptCount,
                        acceptedAt := after.acceptedAt, updatedAt := after.updatedAt, reason := after.reason)
    && before.updatedAt <= after.updatedAt
    && (before.state == Accepted ==> after.state != Prepared)
    && (before.state == Acknowledged ==> after.state !in {Prepared, Accepted})
    && (before.state in {Completed, Failed, Cancelled} ==> after == before)
    && (before.providerId.Some? ==> after.providerId == before.providerId && after.acceptedAt == before.acceptedAt && after.attemptCount == before.attemptCount)
  }

  /** The CHECK constraints on the columns that an update may change: transport shape and time order. */
  ghost predicate ShapeChecks(row: DeliveryRow) {
    && (if row.state == Prepared then row.providerId.None? && row.acceptedAt.None? && row.attemptCount == 0
        else row.providerId.Some? && row.acceptedAt.Some? && row.attemptCount >= 1)
    && row.updatedAt >= row.preparedAt && (row.acceptedAt.Some? ==> row.acceptedAt.value >= row.preparedAt)
  }

  /** The CHECK constraints on the columns that identify a delivery. */
  ghost predicate IdentityChecks(row: DeliveryRow) {
    && TextWithin(row.profile.profileId, 1, 128) && TextWithin(row.profile.tenantId, 1, 128)
    && TextWithin(row.requestId, 1, 128) && TextWithin(row.idempotencyKey, 16, 128)
    && TextWithin(row.correlationId, 1, 128) && TextWithin(row.causationId, 1, 128)
  }

  /** The CHECK constraints on updatable columns and the update trigger of the table. */
  ghost predicate GuardAccepts(before: DeliveryRow, after: DeliveryRow) {
    && ShapeChecks(after)
    && after.profile == before.profile && after.requestId == before.requestId && after.idempotencyKey == before.idempotencyKey
    && after.fingerprint == before.fingerprint && after.correlationId == before.correlationId && after.causationId == before.causationId
    && after.projection == before.projection && after.preparedAt == before.preparedAt
    && (before.providerId.Some? ==> after.providerId == before.providerId)
    && (before.acceptedAt.Some? ==> after.acceptedAt == before.acceptedAt)
    && after.attemptCount >= before.attemptCount
    && after.updatedAt >= before.updatedAt
    && (after.state != before.state ==>
          match before.state
          case Prepared => after.state == Accepted
          case Accepted => after.state in {Acknowledged, Completed, Failed, Cancelled}
          case Acknowledged => after.state in {Completed, Failed, Cancelled}
          case _ => false)
  }

  /** One command: rows move forward, at most one changes, the guards accept it, and the callback
      log only grows. */
  ghost predicate Advances(before: Database, after: Database) {
    && (forall o | o in before.deliveries :: o in after.deliveries && Forward(before.deliveries[o], after.deliveries[o]))
    && (forall key | key in before.callbacks :: key in after.callbacks && after.callbacks[key] == before.callbacks[key])
  }

  lemma FindsItsRow(db: Database, profile: Profile, providerId: ProviderId, operationId: string)
    requires Inv(db) && operationId in ByProvider(db, profile, providerId)
    ensures ByProvider(db, profile, providerId) == {operationId}
    ensures providerId == Simulated(profile.profileId, operationId)
  {
    forall o | o in ByProvider(db, profile, providerId) ensures o == operationId {
      assert RowInv(o, db.deliveries[o]) && RowInv(operationId, db.deliveries[operationId]);
    }
  }

  /** One command leaves every row valid, moves it forward, and passes the table's guards. */
  ghost predicate GoodStep(db: Database, next: Database) {
    && Inv(next)
    && Advances(db, next)
    && (forall o | o in db.deliveries :: GuardAccepts(db.deliveries[o], next.deliveries[o]))
  }

  lemma StayingIsGood(db: Database)
    requires Inv(db)
    ensures GoodStep(db, db)
  {
    forall o | o in db.deliveries ensures GuardAccepts(db.deliveries[o], db.deliveries[o]) {
      assert RowInv(o, db.deliveries[o]);
    }
  }

  lemma RowChangeKeepsKeys(db: Database, next: Database, operationId: string)
    requires KeysDistinct(db) && operationId in db.deliveries && operationId in next.deliveries
    requires next.deliveries == db.deliveries[operationId := next.deliveries[operationId]]
    requires next.deliveries[operationId].profile == db.deliveries[operationId].profile
    requires next.deliveries[operationId].idempotencyKey == db.deliveries[operationId].idempotencyKey
    ensures KeysDistinct(next)
  {
    forall a, b | a in next.deliveries && b in next.deliveries && a != b
      ensures next.deliveries[a].profile.profileId != next.deliveries[b].profile.profileId || next.deliveries[a].idempotencyKey != next.deliveries[b].idempotencyKey
    {
      assert a in db.deliveries && b in db.deliveries;
    }
  }

  lemma RowChangeKeepsLog(db: Database, next: Database, operationId: string)
    requires LogValid(db) && operationId in db.deliveries && operationId in next.deliveries
    requires next.deliveries == db.deliveries[operationId := next.deliveries[operationId]]
    requires Forward(db.deliveries[operationId], next.deliveries[operationId])
    requires LogsFor(db, next, operationId)
    ensures LogValid(next)
  {
  }

  /** The callback log is unchanged, or has one new entry for this delivery. */
  ghost predicate LogsFor(db: Database, next: Database, operationId: string)
    requires operationId in db.deliveries
  {
    || next.callbacks == db.callbacks
    || exists key, fingerprint :: key !in db.callbacks && key.profileId == db.deliveries[operationId].profile.profileId
         && db.deliveries[operationId].providerId.Some?
         && next.callbacks == db.callbacks[key := CallbackRow(operationId, fingerprint)]
  }

  /** Changing one row well, and perhaps logging a callback for it, is a good step. */
  lemma RowChangeIsGood(db: Database, next: Database, operationId: string)
    requires Inv(db) && operationId in db.deliveries && operationId in next.deliveries
    requires next.deliveries == db.deliveries[operationId := next.deliveries[operationId]]
    requires RowInv(operationId, next.deliveries[operationId])
    requires Forward(db.deliveries[operationId], next.deliveries[operationId])
    requires GuardAccepts(db.deliveries[operationId], next.deliveries[operationId])
    requires LogsFor(db, next, operationId)
    ensures GoodStep(db, next)
  {
    StayingIsGood(db);
    RowChangeKeepsKeys(db, next, operationId);
    RowChangeKeepsLog(db, next, operationId);
  }

  /** Inserting a row that collides with none keeps the keys distinct. */
  lemma InsertKeepsKeys(db: Database, profile: Profile, input: PrepareInput, row: DeliveryRow)
    requires KeysDistinct(db) && !Collides(db, profile, input)
    requires row.profile == profile && row.idempotencyKey == input.idempotencyKey
    ensures KeysDistinct(db.(deliveries := db.deliveries[input.operationId := row]))
  {
  }

  lemma InsertIsGood(db: Database, profile: Profile, input: PrepareInput, row: DeliveryRow)
    requires Inv(db) && !Collides(db, profile, input)
    requires row == NewRow(profile, input)
    ensures GoodStep(db, db.(deliveries := db.deliveries[input.operationId := row]))
  {
    StayingIsGood(db);
    InsertKeepsKeys(db, profile, input, row);
  }

  lemma PrepareIsGood(db: Database, profile: Profile, input: PrepareInput)
    requires Inv(db)
    ensures GoodStep(db, Prepare(db, profile, input).0)
  {
    if Collides(db, profile, input) {
      StayingIsGood(db);
    } else {
      StayingIsGood(db);
      InsertIsGood(db, profile, input, NewRow(profile, input));
    }
  }

  lemma SendIsGood(db: Database, profile: Profile, operationId: string, sentAt: int)
    requires Inv(db)
    ensures GoodStep(db, Send(db, profile, operationId, sentAt).0)
  {
    StayingIsGood(db);
    var next := Send(db, profile, operationId, sentAt).0;
    if next != db {
      assert RowInv(operationId, db.deliveries[operationId]);
      RowChangeIsGood(db, next, operationId);
    }
  }

  lemma CancelIsGood(db: Database, profile: Profile, providerId: ProviderId, reason: string, cancelledAt: int)
    requires Inv(db)
    ensures GoodStep(db, Cancel(db, profile, providerId, reason, cancelledAt).0)
  {
    StayingIsGood(db);
    var next := Cancel(db, profile, providerId, reason, cancelledAt).0;
    if next != db {
      var o := Sole(ByProvider(db, profile, providerId));
      assert RowInv(o, db.deliveries[o]);
      RowChangeIsGood(db, next, o);
    }
  }

  lemma CallbackIsGood(db: Database, profile: Profile, input: CallbackInput)
    requires Inv(db)
    ensures GoodStep(db, HandleCallback(db, profile, input).0)
  {
    StayingIsGood(db);
    var next := HandleCallback(db, profile, input).0;
    if next != db {
      var o := Sole(ByProvider(db, profile, input.providerId));
      assert RowInv(o, db.deliveries[o]);
      assert next.callbacks == db.callbacks[CallbackKey(profile.profileId, input.callbackId) := CallbackRow(o, CallbackFingerprintOf(input))];
      assert next.deliveries == db.deliveries[o := next.deliveries[o]];
      RowChangeIsGood(db, next, o);
    }
  }

  lemma ExecuteIsGood(db: Database, command: Command)
    requires Inv(db)
    ensures GoodStep(db, Execute(db, command).0)
  {
    match command
    case DoPrepare(profile, input) => PrepareIsGood(db, profile, input);
    case DoSend(profile, operationId, sentAt) => SendIsGood(db, profile, operationId, sentAt);
    case DoCancel(profile, providerId, reason, cancelledAt) => CancelIsGood(db, profile, providerId, reason, cancelledAt);
    case DoCallback(profile, callback) => CallbackIsGood(db, profile, callback);
  }

  lemma {:induction false} RunKeepsInv(db: Database, commands: seq<Command>)
    requires Inv(db)
    ensures Inv(Run(db, commands)) && Advances(db, Run(db, commands))
    decreases |commands|
  {
    if commands != [] {
      var next := Execute(db, commands[0]).0;
      ExecuteIsGood(db, commands[0]);
      RunKeepsInv(next, commands[1..]);
      AdvancesTransitive(db, next, Run(db, commands));
    }
  }

  lemma AdvancesTransitive(a: Database, b: Database, c: Database)
    requires Advances(a, b) && Advances(b, c)
    ensures Advances(a, c)
  {
    forall o | o in a.deliveries ensures o in c.deliveries && Forward(a.deliveries[o], c.deliveries[o]) {
      assert Forward(a.deliveries[o], b.deliveries[o]) && Forward(b.deliveries[o], c.deliveries[o]);
    }
  }

  // ---------- main theorems ----------

  /** Every reachable row: provider id, accepted_at and attempt_count 1 are set together, exactly
      when the delivery has left PREPARED, and never more than one attempt is made. */
  lemma TransportColumnsAgree(commands: seq<Command>, operationId: string)
    requires operationId in Run(EMPTY, commands).deliveries
    ensures var row := Run(EMPTY, commands).deliveries[operationId];
      && (row.providerId.Some? <==> row.acceptedAt.Some?)
      && (row.acceptedAt.Some? <==> row.attemptCount == 1)
      && (row.attemptCount == 1 <==> row.state != Prepared)
      && row.attemptCount <= 1
  {
    RunKeepsInv(EMPTY, commands);
    assert RowInv(operationId, Run(EMPTY, commands).deliveries[operationId]);
  }

  /** From any point of a run to any later one: a state is never left for an earlier one, updated_at never
      falls, a terminal row is never changed again, and an acceptance is never rewritten. */
  lemma RowsMoveForward(commands: seq<Command>, later: seq<Command>, operationId: string)
    requires operationId in Run(EMPTY, commands).deliveries
    ensures var db := Run(EMPTY, commands);
      operationId in Run(db, later).deliveries && Forward(db.deliveries[operationId], Run(db, later).deliveries[operationId])
  {
    RunKeepsInv(EMPTY, commands);
    RunKeepsInv(Run(EMPTY, commands), later);
  }

  /** Once a send has been accepted, every later send returns that first receipt and changes nothing. */
  lemma SendIsIdempotent(commands: seq<Command>, profile: Profile, operationId: string, sentAt: int, later: seq<Command>, again: int)
    requires Send(Run(EMPTY, commands), profile, operationId, sentAt).1.Success?
    ensures var (sent, reply) := Send(Run(EMPTY, commands), profile, operationId, sentAt);
      var db := Run(sent, later);
      Send(db, profile, operationId, again) == (db, reply)
  {
    var db := Run(EMPTY, commands);
    var sent := Send(db, profile, operationId, sentAt).0;
    RunKeepsInv(EMPTY, commands);
    SendIsGood(db, profile, operationId, sentAt);
    RunKeepsInv(sent, later);
    assert RowInv(operationId, db.deliveries[operationId]);
    assert Forward(sent.deliveries[operationId], Run(sent, later).deliveries[operationId]);
  }

  /** Preparing the same request again returns the first reply and changes nothing, however the
      delivery has moved on and whatever the new preparedAt; and a prepare under its operation id, by
      whatever profile, succeeds only for the profile and request that the row was prepared for. */
  lemma PrepareIsIdempotent(commands: seq<Command>, profile: Profile, input: PrepareInput, later: seq<Command>, other: Profile, again: PrepareInput)
    requires Prepare(Run(EMPTY, commands), profile, input).1.Success?
    ensures var (prepared, reply) := Prepare(Run(EMPTY, commands), profile, input);
      var db := Run(prepared, later);
      && (again.(preparedAt := input.preparedAt) == input ==> Prepare(db, profile, again) == (db, reply))
      && (again.operationId == input.operationId && Prepare(db, other, again).1.Success? ==> other == profile && again.(preparedAt := input.preparedAt, sourceTenantId := input.sourceTenantId) == input)
  {
    var db0 := Run(EMPTY, commands);
    var (prepared, reply) := Prepare(db0, profile, input);
    RunKeepsInv(EMPTY, commands);
    PrepareIsGood(db0, profile, input);
    RunKeepsInv(prepared, later);
    PrepareMatches(db0, profile, input);
    var o, db := input.operationId, Run(prepared, later);
    assert Forward(prepared.deliveries[o], db.deliveries[o]);
    if again.(preparedAt := input.preparedAt) == input {
      PrepareFindsRow(db, profile, again, o);
    }
    if again.operationId == o && Prepare(db, other, again).1.Success? {
      PrepareMatches(db, other, again);
      PrepareKeepsRow(db, other, again, o);
    }
  }

  lemma PrepareKeepsRow(db: Database, profile: Profile, input: PrepareInput, operationId: string)
    requires operationId in db.deliveries
    ensures operationId in Prepare(db, profile, input).0.deliveries
    ensures Prepare(db, profile, input).0.deliveries[operationId] == db.deliveries[operationId]
  {
  }

  lemma PrepareFindsRow(db: Database, profile: Profile, input: PrepareInput, operationId: string)
    requires KeysDistinct(db)
    requires operationId == input.operationId && operationId in db.deliveries
    requires ValidProfile(profile) && ValidPrepare(input) && input.sourceTenantId == profile.tenantId
    requires InScope(db.deliveries[operationId], profile) && db.deliveries[operationId].idempotencyKey == input.idempotencyKey
    requires db.deliveries[operationId].fingerprint == FingerprintOf(profile, input)
    ensures Prepare(db, profile, input) == (db, Success(PreparedFrom(operationId, db.deliveries[operationId])))
  {
    var existing := ExistingFor(db, profile, input);
    forall o | o in existing ensures o == operationId {}
    assert existing == {operationId};
    assert |existing| == 1;
  }

  lemma PrepareMatches(db: Database, profile: Profile, input: PrepareInput)
    requires Prepare(db, profile, input).1.Success?
    ensures var (next, reply) := Prepare(db, profile, input);
      && input.operationId in next.deliveries
      && InScope(next.deliveries[input.operationId], profile)
      && next.deliveries[input.operationId].idempotencyKey == input.idempotencyKey
      && next.deliveries[input.operationId].fingerprint == FingerprintOf(profile, input)
      && reply.value == PreparedFrom(input.operationId, next.deliveries[input.operationId])
      && ValidProfile(profile) && ValidPrepare(input) && input.sourceTenantId == profile.tenantId
  {
  }

  // ---------- the constraints of the tables ----------

  /** A row that a command adds is one that Prepare inserts, for a valid profile and input. */
  lemma NewRowIsPrepared(db: Database, command: Command, operationId: string)
    requires operationId in Execute(db, command).0.deliveries && operationId !in db.deliveries
    ensures command.DoPrepare? && ValidProfile(command.profile) && ValidPrepare(command.input)
    ensures Execute(db, command).0.deliveries[operationId] == NewRow(command.profile, command.input)
  {
    match command
    case DoPrepare(_, _) =>
    case DoSend(_, _, _) =>
    case DoCancel(profile, providerId, _, _) => OnlyFoundRowsChange(db, profile, providerId);
    case DoCallback(profile, callback) => OnlyFoundRowsChange(db, profile, callback.providerId);
  }

  lemma OnlyFoundRowsChange(db: Database, profile: Profile, providerId: ProviderId)
    ensures |ByProvider(db, profile, providerId)| == 1 ==> Sole(ByProvider(db, profile, providerId)) in db.deliveries
  {
    if |ByProvider(db, profile, providerId)| == 1 {
      assert Sole(ByProvider(db, profile, providerId)) in ByProvider(db, profile, providerId);
    }
  }

  lemma NewCallbackIsValid(db: Database, command: Command, key: CallbackKey)
    requires key in Execute(db, command).0.callbacks && key !in db.callbacks
    ensures TextWithin(key.profileId, 1, 128) && TextWithin(key.callbackId, 1, 128)
  {
    LogGrowsBySuccess(db, command, key);
  }

  /** The CHECK constraints on identities and callback keys. */
  ghost predicate ColumnsChecked(db: Database) {
    && (forall o | o in db.deliveries :: IdentityChecks(db.deliveries[o]))
    && (forall key | key in db.callbacks :: TextWithin(key.profileId, 1, 128) && TextWithin(key.callbackId, 1, 128))
  }

  lemma ExecuteKeepsColumns(db: Database, command: Command)
    requires Inv(db) && ColumnsChecked(db)
    ensures ColumnsChecked(Execute(db, command).0)
  {
    var next := Execute(db, command).0;
    ExecuteIsGood(db, command);
    forall o | o in next.deliveries ensures IdentityChecks(next.deliveries[o]) {
      if o in db.deliveries {
        assert Forward(db.deliveries[o], next.deliveries[o]) && IdentityChecks(db.deliveries[o]);
      } else {
        NewRowIsPrepared(db, command, o);
      }
    }
    forall key | key in next.callbacks ensures TextWithin(key.profileId, 1, 128) && TextWithin(key.callbackId, 1, 128) {
      if key !in db.callbacks {
        NewCallbackIsValid(db, command, key);
      }
    }
  }

  lemma {:induction false} RunKeepsColumns(db: Database, commands: seq<Command>)
    requires Inv(db) && ColumnsChecked(db)
    ensures ColumnsChecked(Run(db, commands))
    decreases |commands|
  {
    if commands != [] {
      ExecuteIsGood(db, commands[0]);
      ExecuteKeepsColumns(db, commands[0]);
      RunKeepsColumns(Execute(db, commands[0]).0, commands[1..]);
    }
  }

  /** UNIQUE (profile_id, idempotency_key) and UNIQUE (profile_id, provider_request_id). */
  ghost predicate Unique(db: Database, a: string, b: string)
    requires a in db.deliveries && b in db.deliveries
  {
    var x, y := db.deliveries[a], db.deliveries[b];
    x.profile.profileId == y.profile.profileId ==>
      x.idempotencyKey != y.idempotencyKey && (x.providerId.Some? ==> x.providerId != y.providerId)
  }

  lemma ProviderIdsDiffer(db: Database, a: string, b: string)
    requires Inv(db) && a in db.deliveries && b in db.deliveries && a != b
    ensures Unique(db, a, b)
  {
    assert RowInv(a, db.deliveries[a]) && RowInv(b, db.deliveries[b]);
  }

  /** Whatever a command writes, inserted rows included, passes the CHECK constraints of its table and
      its UNIQUE keys; the update trigger accepts every change of a row that was there. */
  lemma GuardsNeverFire(commands: seq<Command>, command: Command, operationId: string)
    requires operationId in Execute(Run(EMPTY, commands), command).0.deliveries
    ensures var db := Run(EMPTY, commands);
      var next := Execute(db, command).0;
      && IdentityChecks(next.deliveries[operationId]) && ShapeChecks(next.deliveries[operationId])
      && (operationId in db.deliveries ==> GuardAccepts(db.deliveries[operationId], next.deliveries[operationId]))
      && forall o | o in next.deliveries && o != operationId :: Unique(next, o, operationId)
  {
    var db := Run(EMPTY, commands);
    RunKeepsInv(EMPTY, commands);
    RunKeepsColumns(EMPTY, commands);
    ExecuteIsGood(db, command);
    ExecuteKeepsColumns(db, command);
    var next := Execute(db, command).0;
    assert RowInv(operationId, next.deliveries[operationId]);
    forall o | o in next.deliveries && o != operationId ensures Unique(next, o, operationId) {
      ProviderIdsDiffer(next, o, operationId);
    }
  }

  /** So does every callback: its key has the required lengths, the delivery it refers to exists under
      its profile, and an entry once written is neither changed nor deleted. */
  lemma CallbackGuardsNeverFire(commands: seq<Command>, command: Command, key: CallbackKey)
    requires key in Execute(Run(EMPTY, commands), command).0.callbacks
    ensures var db := Run(EMPTY, commands);
      var next := Execute(db, command).0;
      && TextWithin(key.profileId, 1, 128) && TextWithin(key.callbackId, 1, 128)
      && next.callbacks[key].operationId in next.deliveries
      && next.deliveries[next.callbacks[key].operationId].profile.profileId == key.profileId
      && forall logged | logged in db.callbacks :: logged in next.callbacks && next.callbacks[logged] == db.callbacks[logged]
  {
    var db := Run(EMPTY, commands);
    RunKeepsInv(EMPTY, commands);
    RunKeepsColumns(EMPTY, commands);
    ExecuteIsGood(db, command);
    ExecuteKeepsColumns(db, command);
  }

  // ---------- callbacks ----------

  function KeyOf(command: Command): CallbackKey
    requires command.DoCallback?
  {
    CallbackKey(command.profile.profileId, command.callback.callbackId)
  }

  lemma LoggedChangesNothing(db: Database, profile: Profile, input: CallbackInput)
    requires CallbackKey(profile.profileId, input.callbackId) in db.callbacks
    ensures var (next, reply) := HandleCallback(db, profile, input);
      && next == db
      && (reply.Success? ==> db.callbacks[CallbackKey(profile.profileId, input.callbackId)].fingerprint == CallbackFingerprintOf(input))
  {
  }

  /** A logged callback id keeps its meaning forever: later runs never rebind it, and delivering it
      again changes nothing, whatever it says now. */
  lemma LoggedCallbackIsInert(commands: seq<Command>, later: seq<Command>, command: Command)
    requires command.DoCallback? && KeyOf(command) in Run(EMPTY, commands).callbacks
    ensures var before, db := Run(EMPTY, commands), Run(Run(EMPTY, commands), later);
      && KeyOf(command) in db.callbacks && db.callbacks[KeyOf(command)] == before.callbacks[KeyOf(command)]
      && Execute(db, command).0 == db
      && (Execute(db, command).1.Success? ==> CallbackFingerprintOf(command.callback) == before.callbacks[KeyOf(command)].fingerprint)
  {
    RunKeepsInv(EMPTY, commands);
    RunKeepsInv(Run(EMPTY, commands), later);
    LoggedChangesNothing(Run(Run(EMPTY, commands), later), command.profile, command.callback);
  }

  /** The delivery a callback names. */
  function TargetOf(command: Command): string
    requires command.DoCallback? && command.callback.providerId.Simulated?
  {
    command.callback.providerId.operationId
  }

  /** A callback whose id is not yet logged: it is logged exactly when it succeeds, and it succeeds
      exactly by moving its delivery to the state it reports or by finding it already there. */
  lemma FreshCallback(commands: seq<Command>, command: Command)
    requires command.DoCallback? && KeyOf(command) !in Run(EMPTY, commands).callbacks
    ensures var db := Run(EMPTY, commands);
      var (next, reply) := Execute(db, command);
      && (KeyOf(command) in next.callbacks <==> reply.Success?)
      && (reply.Failure? ==> next == db)
      && (reply.Success? ==>
            && command.callback.providerId.Simulated? && TargetOf(command) in db.deliveries
            && next.deliveries[TargetOf(command)].state == command.callback.state.Target()
            && (db.deliveries[TargetOf(command)].state == command.callback.state.Target() ==> next.deliveries == db.deliveries)
            && (db.deliveries[TargetOf(command)].state != command.callback.state.Target() ==>
                  && next.deliveries[TargetOf(command)].updatedAt == command.callback.occurredAt
                  && next.deliveries[TargetOf(command)].reason == command.callback.reason))
  {
    var db := Run(EMPTY, commands);
    RunKeepsInv(EMPTY, commands);
    var found := ByProvider(db, command.profile, command.callback.providerId);
    if |found| == 1 {
      FindsItsRow(db, command.profile, command.callback.providerId, Sole(found));
    }
  }

  /** Position i of the run holds a callback with this key that succeeds. */
  ghost predicate SucceedsAt(db: Database, commands: seq<Command>, i: nat, key: CallbackKey)
    requires i < |commands|
  {
    SucceedsNow(Run(db, commands[..i]), commands[i], key)
  }

  lemma {:induction false} RunAppend(db: Database, commands: seq<Command>, last: Command)
    ensures Run(db, commands + [last]) == Execute(Run(db, commands), last).0
    decreases |commands|
  {
    if commands != [] {
      assert (commands + [last])[1..] == commands[1..] + [last];
      RunAppend(Execute(db, commands[0]).0, commands[1..], last);
    } else {
      assert (commands + [last])[1..] == [];
    }
  }

  ghost predicate SucceedsNow(db: Database, command: Command, key: CallbackKey) {
    command.DoCallback? && KeyOf(command) == key && Execute(db, command).1.Success?
  }

  lemma OnlyCallbacksLog(db: Database, command: Command)
    requires !command.DoCallback?
    ensures Execute(db, command).0.callbacks == db.callbacks
  {
  }

  lemma CallbackLogsOnSuccess(db: Database, profile: Profile, input: CallbackInput, key: CallbackKey)
    ensures key in HandleCallback(db, profile, input).0.callbacks <==>
      key in db.callbacks || (key == CallbackKey(profile.profileId, input.callbackId) && HandleCallback(db, profile, input).1.Success?)
  {
  }

  lemma LogGrowsBySuccess(db: Database, last: Command, key: CallbackKey)
    ensures key in Execute(db, last).0.callbacks <==> key in db.callbacks || SucceedsNow(db, last, key)
  {
    if last.DoCallback? {
      CallbackLogsOnSuccess(db, last.profile, last.callback, key);
    } else {
      OnlyCallbacksLog(db, last);
    }
  }

  /** Over every run the log holds exactly the callbacks that succeeded at some point: a rejected
      callback leaves no entry behind. */
  lemma {:induction false} LogHoldsAcceptedCallbacks(commands: seq<Command>, key: CallbackKey)
    ensures key in Run(EMPTY, commands).callbacks <==> exists i :: 0 <= i < |commands| && SucceedsAt(EMPTY, commands, i, key)
    decreases |commands|
  {
    if commands != [] {
      var n := |commands| - 1;
      var front, last := commands[..n], commands[n];
      assert commands == front + [last];
      RunAppend(EMPTY, front, last);
      LogHoldsAcceptedCallbacks(front, key);
      LogGrowsBySuccess(Run(EMPTY, front), last, key);
      assert SucceedsAt(EMPTY, commands, n, key) <==> SucceedsNow(Run(EMPTY, front), last, key);
      forall i | 0 <= i < n ensures SucceedsAt(EMPTY, commands, i, key) <==> SucceedsAt(EMPTY, front, i, key) {
        assert commands[..i] == front[..i];
      }
    }
  }
}
