/** Whole runs of one field companion session: operations queued, saved and flushed, the process
    killed at any point, also between a delivery and the save, and started again. */
module FieldRuns {
  import opened StableSort
  import opened Wrappers
  import opened FieldQueue

  datatype Identity = Identity(tenantId: string, caseId: string, sessionId: string, simulation: bool)

  datatype Persisted = Persisted(identity: Identity, savedAt: int, state: Companion)

  function InitialCompanion(language: Language): Companion {
    Companion(Session(language, ConsentPending, Ready, NotRequested, [Yes, No, Unknown], true, false), Online, [], [])
  }

  predicate ValidPersisted(persisted: Persisted, identity: Identity, now: int) {
    && persisted.identity == identity
    && now - persisted.savedAt <= LOCAL_RETENTION_MS
    && |persisted.state.pending| <= MAX_QUEUE
  }

  function Restored(state: Companion): Companion {
    state.(session := state.session.(phase := PhaseForNetwork(state.network, state.session.phase)))
  }

  function NewOperation(operationId: string, key: string, payload: Payload, now: int): Operation {
    Operation(operationId, key, payload, now, now + LOCAL_RETENTION_MS, 0)
  }

  /** What the companion's methods make of the session besides queueing and flushing. */
  datatype SessionChange =
    | ConsentAnswered(granted: bool, at: int)
    | LanguageSelected(language: Language)
    | Replied(selected: seq<ReplyOption>)
    | DeviceUpdated(network: Network)
    | TakeoverReceived
    | ContactEnded

  function AfterConsent(session: Session, network: Network, granted: bool, occurredAt: int): Session {
    session.(
      consent := if granted then Granted(occurredAt) else Declined(occurredAt),
      contactState := if granted then SelectingLanguage else UnderHumanReview,
      phase := if granted then PhaseForNetwork(network, Ready) else HumanReview,
      promptActive := granted,
      allowedReplyOptions := if granted then [Yes, No] else [])
  }

  function AfterReply(session: Session, network: Network, selected: seq<ReplyOption>): Session {
    var urgent := HelpRequested in selected || CannotSpeak in selected;
    session.(
      contactState := if urgent then UnderHumanReview else PartialResponse,
      phase := if urgent then HumanReview else PhaseForNetwork(network, Ready))
  }

  function Changed(c: Companion, change: SessionChange): Companion {
    match change
    case ConsentAnswered(granted, at) => c.(session := AfterConsent(c.session, c.network, granted, at))
    case LanguageSelected(language) =>
      c.(session := c.session.(language := language, contactState := AwaitingResponse, promptActive := true,
                               allowedReplyOptions := [Yes, No, CannotSpeak, HelpRequested, Unknown]))
    case Replied(selected) => c.(session := AfterReply(c.session, c.network, selected))
    case DeviceUpdated(network) =>
      c.(network := network, session := c.session.(phase := PhaseForNetwork(network, c.session.phase)))
    case TakeoverReceived =>
      c.(session := c.session.(contactState := TakenOver, phase := OperatorTakeover, takeoverVisible := true,
                               promptActive := false, allowedReplyOptions := []))
    case ContactEnded =>
      c.(session := c.session.(contactState := ContactCompleted, phase := CompletedPhase, promptActive := false, allowedReplyOptions := []))
  }

  /** `running` is lost in a crash, `storage` and the gateway are not.  `issued` (identifiers ever
      created) and `saved` (every key ever saved, with its expiry) are history variables.  LostAnswer is a
      delivery that reaches the gateway but whose answer does not come back: the gateway has the
      operation and the queue keeps it. */
  datatype World = World(
    now: int,
    identity: Identity,
    storage: Option<Persisted>,
    running: Option<Companion>,
    gateway: Gateway,
    issued: set<string>,
    saved: map<string, int>)

  datatype Event =
    | Elapse(ms: nat)
    | Crash
    | Boot(language: Language)
    | Enqueue(operationId: string, key: string, payload: Payload)
    | Change(change: SessionChange)
    | Persist
    | LostAnswer(j: nat)
    | FlushQueue(clock: Clock, up: nat -> bool)
    | FlushCut(n: nat, clock: Clock, up: nat -> bool)

  ghost predicate Enabled(w: World, e: Event) {
    match e
    case Elapse(_) => true
    case Crash => true
    case Boot(_) => w.running.None?
    case Enqueue(operationId, key, _) =>
      && w.running.Some? && |w.running.value.pending| < MAX_QUEUE
      && operationId !in w.issued && key !in w.issued && operationId != key
    case Change(_) => w.running.Some?
    case Persist => w.running.Some?
    case LostAnswer(j) => w.running.Some? && j < |w.running.value.pending|
    case FlushQueue(clock, _) => w.running.Some? && w.running.value.network != Offline && Monotone(clock) && w.now <= clock(0)
    case FlushCut(n, clock, _) =>
      && w.running.Some? && w.running.value.network != Offline && Monotone(clock) && w.now <= clock(0)
      && n <= |w.running.value.pending|
  }

  function AddSaved(saved: map<string, int>, pending: seq<Operation>): map<string, int> {
    if pending == [] then saved
    else
      var before := AddSaved(saved, pending[..|pending| - 1]);
      var last := pending[|pending| - 1];
      if last.key in before then before else before[last.key := last.expiresAt]
  }

  function Save(w: World, state: Companion): World {
    w.(storage := Some(Persisted(w.identity, w.now, state)), running := Some(state), saved := AddSaved(w.saved, state.pending))
  }

  function Step(w: World, e: Event): World
    requires Enabled(w, e)
  {
    match e
    case Elapse(ms) => w.(now := w.now + ms)
    case Crash => w.(running := None)
    case Boot(language) =>
      if w.storage.Some? && ValidPersisted(w.storage.value, w.identity, w.now) then w.(running := Some(Restored(w.storage.value.state)))
      else Save(w, InitialCompanion(language))
    case Enqueue(operationId, key, payload) =>
      var c := w.running.value;
      w.(running := Some(c.(pending := c.pending + [NewOperation(operationId, key, payload, w.now)])),
         issued := w.issued + {operationId, key})
    case Change(change) => w.(running := Some(Changed(w.running.value, change)))
    case Persist => Save(w, w.running.value)
    case LostAnswer(j) => w.(gateway := Deliver(w.gateway, w.running.value.pending[j]).0)
    case FlushQueue(clock, up) =>
      var (next, gateway) := Flush(w.running.value, w.gateway, clock, up);
      w.(running := Some(next), gateway := gateway, now := clock(2 * |w.running.value.pending|))
    case FlushCut(n, clock, up) =>
      w.(running := None, gateway := FlushFirst(w.running.value, w.gateway, n, clock, up).gateway,
         now := clock(2 * |w.running.value.pending|))
  }

  ghost predicate ValidRun(w: World, events: seq<Event>)
    decreases |events|
  {
    events == [] || (Enabled(w, events[0]) && ValidRun(Step(w, events[0]), events[1..]))
  }

  function RunAll(w: World, events: seq<Event>): World
    requires ValidRun(w, events)
    decreases |events|
  {
    if events == [] then w else RunAll(Step(w, events[0]), events[1..])
  }

  function FirstStart(identity: Identity, now: int): World {
    World(now, identity, None, None, Gateway([], map[]), {}, map[])
  }

  // ---------- the invariant ----------

  ghost predicate QueueInv(c: Companion, gateway: Gateway, issued: set<string>, asOf: int) {
    && DistinctOperations(c.pending) && |c.pending| <= MAX_QUEUE
    && (forall j | 0 <= j < |c.pending| ::
          && c.pending[j].key !in c.acknowledged
          && c.pending[j].key in issued && c.pending[j].operationId in issued
          && c.pending[j].expiresAt <= asOf + LOCAL_RETENTION_MS)
    && (forall k | k in c.acknowledged :: k in gateway.receipts)
  }

  ghost predicate Queued(ops: seq<Operation>, k: string, expiresAt: int) {
    exists j :: 0 <= j < |ops| && ops[j].key == k && ops[j].expiresAt == expiresAt
  }

  /** A saved operation that has not expired and was not delivered is still in storage, and in the
      running queue when there is one. */
  ghost predicate Retained(w: World, k: string)
    requires k in w.saved
  {
    || w.saved[k] <= w.now
    || k in w.gateway.receipts
    || (&& w.storage.Some? && Queued(w.storage.value.state.pending, k, w.saved[k])
        && (w.running.Some? ==> Queued(w.running.value.pending, k, w.saved[k])))
  }

  ghost predicate StorageInv(w: World) {
    w.storage.Some? ==>
      && w.storage.value.identity == w.identity && w.storage.value.savedAt <= w.now
      && QueueInv(w.storage.value.state, w.gateway, w.issued, w.storage.value.savedAt)
  }

  ghost predicate Inv(w: World) {
    && GatewayInv(w.gateway)
    && (forall k | k in w.gateway.receipts :: k in w.issued)
    && StorageInv(w)
    && (w.running.Some? ==> QueueInv(w.running.value, w.gateway, w.issued, w.now))
    && (forall k | k in w.saved :: Retained(w, k))
  }

  lemma {:induction false} AddSavedKeys(saved: map<string, int>, pending: seq<Operation>, k: string)
    ensures var next := AddSaved(saved, pending);
      && (k in saved ==> k in next && next[k] == saved[k])
      && (k in next && k !in saved ==> Queued(pending, k, next[k]))
    decreases |pending|
  {
    if pending != [] {
      var front := pending[..|pending| - 1];
      AddSavedKeys(saved, front, k);
      var next := AddSaved(saved, pending);
      if k in next && k !in saved {
        if k in AddSaved(saved, front) {
          var j :| 0 <= j < |front| && front[j].key == k && front[j].expiresAt == next[k];
          assert pending[j] == front[j];
        } else {
          assert pending[|pending| - 1].key == k;
        }
      }
    }
  }

  lemma SaveKeepsInv(w: World, state: Companion)
    requires Inv(w) && QueueInv(state, w.gateway, w.issued, w.now)
    requires forall k | k in w.saved :: w.saved[k] <= w.now || k in w.gateway.receipts || Queued(state.pending, k, w.saved[k])
    ensures Inv(Save(w, state))
  {
    var next := Save(w, state);
    forall k | k in next.saved ensures Retained(next, k) {
      AddSavedKeys(w.saved, state.pending, k);
    }
  }

  /** Storage is discarded at boot only when it is more than 24 hours old, and then every operation
      in it has expired. */
  lemma ResetMeansExpired(w: World)
    requires Inv(w) && w.storage.Some? && !ValidPersisted(w.storage.value, w.identity, w.now)
    ensures forall j | 0 <= j < |w.storage.value.state.pending| :: w.storage.value.state.pending[j].expiresAt < w.now
  {
  }

  lemma BootKeepsInv(w: World, e: Event)
    requires Inv(w) && e.Boot? && Enabled(w, e)
    ensures Inv(Step(w, e))
  {
    var next := Step(w, e);
    if w.storage.Some? && ValidPersisted(w.storage.value, w.identity, w.now) {
      forall k | k in next.saved ensures Retained(next, k) {
        assert Retained(w, k);
      }
    } else {
      if w.storage.Some? {
        ResetMeansExpired(w);
      }
      forall k | k in w.saved ensures w.saved[k] <= w.now || k in w.gateway.receipts {
        assert Retained(w, k);
      }
      SaveKeepsInv(w, InitialCompanion(e.language));
    }
  }

  lemma EnqueueKeepsInv(w: World, e: Event)
    requires Inv(w) && e.Enqueue? && Enabled(w, e)
    ensures Inv(Step(w, e))
  {
    var next := Step(w, e);
    var before, after := w.running.value.pending, next.running.value.pending;
    forall k | k in next.saved ensures Retained(next, k) {
      assert Retained(w, k);
      if w.saved[k] > w.now && k !in w.gateway.receipts {
        var j :| 0 <= j < |before| && before[j].key == k && before[j].expiresAt == w.saved[k];
        assert after[j] == before[j];
      }
    }
  }

  lemma FlushGateway(c: Companion, gateway: Gateway, clock: Clock, up: nat -> bool)
    requires Flushable(c, gateway) && Monotone(clock)
    requires forall k | k in c.acknowledged :: k in gateway.receipts
    ensures var (next, nextGateway) := Flush(c, gateway, clock, up);
      && GatewayInv(nextGateway)
      && (forall k | k in gateway.receipts :: k in nextGateway.receipts)
      && (forall k | k in nextGateway.receipts && k !in gateway.receipts :: k in Keys(c.pending))
      && (forall k | k in next.acknowledged :: k in nextGateway.receipts)
  {
    FlushIsSinglePass(c, gateway, clock, up);
    DeliverAllKeys(gateway, DeliveredFrom(c, 0, clock, up));
    CutKeys(c, gateway, |c.pending|, clock, up);
  }

  /** Each operation left in the queue comes from the old queue and is not acknowledged. */
  lemma FlushedOperation(c: Companion, gateway: Gateway, clock: Clock, up: nat -> bool, j: nat) returns (i: nat)
    requires Flushable(c, gateway) && Monotone(clock) && j < |Flush(c, gateway, clock, up).0.pending|
    ensures i < |c.pending|
    ensures var next := Flush(c, gateway, clock, up).0;
      SameOperation(next.pending[j], c.pending[i]) && next.pending[j].key !in next.acknowledged
  {
    var next := Flush(c, gateway, clock, up).0;
    FlushKeepsOrder(c, gateway, clock, up);
    FlushIsSinglePass(c, gateway, clock, up);
    i := KeptCameFrom(next.pending, c.pending, j);
    Fate(c, 0, i, clock, up);
    WindowHoldsDelivered(c, c.pending[i].key, clock, up);
    assert Keys(next.pending)[j] == c.pending[i].key;
  }

  lemma FlushKeepsQueueInv(w: World, e: Event)
    requires Inv(w) && e.FlushQueue? && Enabled(w, e)
    ensures var next := Step(w, e);
      && w.now <= next.now && GatewayInv(next.gateway)
      && (forall k | k in w.gateway.receipts :: k in next.gateway.receipts)
      && (forall k | k in next.gateway.receipts :: k in w.issued)
      && QueueInv(next.running.value, next.gateway, w.issued, next.now)
  {
    var c := w.running.value;
    var (next, gateway) := Flush(c, w.gateway, e.clock, e.up);
    FlushGateway(c, w.gateway, e.clock, e.up);
    FlushKeepsOrder(c, w.gateway, e.clock, e.up);
    KeptNoLonger(next.pending, c.pending);
    assert e.clock(0) <= e.clock(2 * |c.pending|);
    forall j | 0 <= j < |next.pending|
      ensures next.pending[j].key in w.issued && next.pending[j].operationId in w.issued
      ensures next.pending[j].expiresAt <= w.now + LOCAL_RETENTION_MS && next.pending[j].key !in next.acknowledged
    {
      var i := FlushedOperation(c, w.gateway, e.clock, e.up, j);
    }
  }

  lemma {:induction false} KeptNoLonger(kept: seq<Operation>, ops: seq<Operation>)
    requires KeepsOrder(kept, ops)
    ensures |kept| <= |ops|
    decreases |ops|
  {
    if kept != [] {
      if KeepsOrder(kept, ops[1..]) {
        KeptNoLonger(kept, ops[1..]);
      } else {
        KeptNoLonger(kept[1..], ops[1..]);
      }
    }
  }

  lemma FlushKeepsInv(w: World, e: Event)
    requires Inv(w) && e.FlushQueue? && Enabled(w, e)
    ensures Inv(Step(w, e))
  {
    var next := Step(w, e);
    var c, d := w.running.value, next.running.value;
    FlushKeepsQueueInv(w, e);
    FlushKeepsOrder(c, w.gateway, e.clock, e.up);
    forall k | k in next.saved ensures Retained(next, k) {
      assert Retained(w, k);
      if w.saved[k] > w.now && k !in w.gateway.receipts {
        var j :| 0 <= j < |c.pending| && c.pending[j].key == k && c.pending[j].expiresAt == w.saved[k];
        FlushLosesNothing(c, w.gateway, e.clock, e.up, j);
        assert e.clock(|c.pending| + j) <= next.now;
        if k in Keys(d.pending) {
          var i :| 0 <= i < |d.pending| && d.pending[i].key == k;
          var from := KeptCameFrom(d.pending, c.pending, i);
          assert from == j;
        }
      }
    }
  }

  lemma CutKeepsInv(w: World, e: Event)
    requires Inv(w) && e.FlushCut? && Enabled(w, e)
    ensures Inv(Step(w, e))
  {
    var c := w.running.value;
    CutKeys(c, w.gateway, e.n, e.clock, e.up);
    assert e.clock(0) <= e.clock(2 * |c.pending|);
    var next := Step(w, e);
    forall k | k in next.saved ensures Retained(next, k) {
      assert Retained(w, k);
    }
  }

  lemma LostAnswerKeepsInv(w: World, j: nat)
    requires Inv(w) && Enabled(w, LostAnswer(j))
    ensures Inv(Step(w, LostAnswer(j)))
  {
    var next := Step(w, LostAnswer(j));
    DeliverOnce(w.gateway, w.running.value.pending[j]);
    forall k | k in next.saved ensures Retained(next, k) {
      assert Retained(w, k);
    }
  }

  lemma StepKeepsInv(w: World, e: Event)
    requires Inv(w) && Enabled(w, e)
    ensures Inv(Step(w, e))
  {
    match e
    case Boot(_) => BootKeepsInv(w, e);
    case Enqueue(_, _, _) => EnqueueKeepsInv(w, e);
    case Persist =>
      forall k | k in w.saved ensures w.saved[k] <= w.now || k in w.gateway.receipts || Queued(w.running.value.pending, k, w.saved[k]) {
        assert Retained(w, k);
      }
      SaveKeepsInv(w, w.running.value);
    case LostAnswer(j) => LostAnswerKeepsInv(w, j);
    case FlushQueue(_, _) => FlushKeepsInv(w, e);
    case FlushCut(_, _, _) => CutKeepsInv(w, e);
    case _ =>
      var next := Step(w, e);
      forall k | k in next.saved ensures Retained(next, k) {
        assert Retained(w, k);
      }
  }

  lemma {:induction false} RunKeepsInv(w: World, events: seq<Event>)
    requires Inv(w) && ValidRun(w, events)
    ensures Inv(RunAll(w, events))
    decreases |events|
  {
    if events != [] {
      StepKeepsInv(w, events[0]);
      RunKeepsInv(Step(w, events[0]), events[1..]);
    }
  }

  // ---------- main theorems ----------

  /** Over every run, with crashes anywhere, each idempotency key is delivered at most once. */
  lemma DeliveredAtMostOnce(identity: Identity, now: int, events: seq<Event>)
    requires ValidRun(FirstStart(identity, now), events)
    ensures Distinct(Keys(RunAll(FirstStart(identity, now), events).gateway.deliveries))
  {
    RunKeepsInv(FirstStart(identity, now), events);
  }

  /** Over every run, an operation that was ever saved has expired, has been delivered, or is
      still saved as pending. */
  lemma SavedOperationsAreNotLost(identity: Identity, now: int, events: seq<Event>, k: string)
    requires ValidRun(FirstStart(identity, now), events) && k in RunAll(FirstStart(identity, now), events).saved
    ensures var w := RunAll(FirstStart(identity, now), events);
      || w.saved[k] <= w.now
      || k in Keys(w.gateway.deliveries)
      || (w.storage.Some? && Queued(w.storage.value.state.pending, k, w.saved[k]))
  {
    RunKeepsInv(FirstStart(identity, now), events);
    assert Retained(RunAll(FirstStart(identity, now), events), k);
  }

  /** Over every run, the reset at boot happens only because of age and discards only expired operations. */
  lemma ResetDiscardsOnlyExpired(identity: Identity, now: int, events: seq<Event>)
    requires ValidRun(FirstStart(identity, now), events)
    ensures var w := RunAll(FirstStart(identity, now), events);
      w.storage.Some? && !ValidPersisted(w.storage.value, w.identity, w.now) ==>
        && w.now - w.storage.value.savedAt > LOCAL_RETENTION_MS
        && forall j | 0 <= j < |w.storage.value.state.pending| :: w.storage.value.state.pending[j].expiresAt < w.now
  {
    RunKeepsInv(FirstStart(identity, now), events);
    var w := RunAll(FirstStart(identity, now), events);
    if w.storage.Some? && !ValidPersisted(w.storage.value, w.identity, w.now) {
      ResetMeansExpired(w);
    }
  }
}
