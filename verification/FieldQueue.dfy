/** The offline queue of the field companion: operations, the deduplicating gateway, and one flush. */
module FieldQueue {
  import opened StableSort

  const MAX_QUEUE := 100
  const LOCAL_RETENTION_MS := 24 * 60 * 60 * 1000
  const ACKNOWLEDGED_WINDOW := 200

  datatype ReplyOption = Yes | No | Unknown | HelpRequested | CannotSpeak | AccessibilitySupportRequired
  datatype Language = Arabic | English
  datatype Payload =
    | Consent(granted: bool)
    | LanguageSelection(language: Language)
    | StructuredReply(selected: seq<ReplyOption>)
    | DeviceMetadata
    | Reconnect

  datatype Operation = Operation(operationId: string, key: string, payload: Payload, createdAt: int, expiresAt: int, attemptCount: nat)

  datatype Network = Online | Degraded | Offline
  datatype Phase = Booting | Ready | OfflinePhase | HumanReview | OperatorTakeover | CompletedPhase | FailurePhase
  datatype ContactState =
    | ConsentPending | SelectingLanguage | AwaitingResponse | PartialResponse
    | UnderHumanReview | TakenOver | ContactCompleted
  datatype ConsentState = NotRequested | Granted(at: int) | Declined(at: int) | EmergencySafetyReview(at: int)

  datatype Session = Session(
    language: Language,
    contactState: ContactState,
    phase: Phase,
    consent: ConsentState,
    allowedReplyOptions: seq<ReplyOption>,
    promptActive: bool,
    takeoverVisible: bool)

  datatype Disposition = Accepted | Duplicate | ForHumanReview | ForTakeover
  datatype Receipt = Receipt(key: string, disposition: Disposition, contactState: ContactState)

  /** What the controller holds between calls and what it persists. */
  datatype Companion = Companion(session: Session, network: Network, pending: seq<Operation>, acknowledged: seq<string>)

  datatype Gateway = Gateway(deliveries: seq<Operation>, receipts: map<string, Receipt>)

  /** Successive readings of the clock during one call. */
  type Clock = nat -> int

  ghost predicate Monotone(clock: Clock) {
    forall i: nat, j: nat | i <= j :: clock(i) <= clock(j)
  }

  // ---------- gateway ----------

  function DispositionOf(payload: Payload): Disposition {
    match payload
    case Consent(granted) => if granted then Accepted else ForHumanReview
    case StructuredReply(selected) =>
      if HelpRequested in selected || CannotSpeak in selected then ForTakeover
      else if Unknown in selected then ForHumanReview
      else Accepted
    case _ => Accepted
  }

  function FirstReceipt(op: Operation): Receipt {
    var disposition := DispositionOf(op.payload);
    Receipt(op.key, disposition,
            match disposition
            case ForTakeover => TakenOver
            case ForHumanReview => UnderHumanReview
            case _ => AwaitingResponse)
  }

  function Deliver(gateway: Gateway, op: Operation): (Gateway, Receipt) {
    if op.key in gateway.receipts then (gateway, gateway.receipts[op.key].(disposition := Duplicate))
    else
      var receipt := FirstReceipt(op);
      (Gateway(gateway.deliveries + [op], gateway.receipts[op.key := receipt]), receipt)
  }

  function Keys(ops: seq<Operation>): seq<string> {
    seq(|ops|, i requires 0 <= i < |ops| => ops[i].key)
  }

  /** Each idempotency key is delivered at most once, and receipts record exactly the delivered keys. */
  ghost predicate GatewayInv(gateway: Gateway) {
    && Distinct(Keys(gateway.deliveries))
    && (forall k :: k in gateway.receipts <==> k in Keys(gateway.deliveries))
    && (forall k | k in gateway.receipts :: gateway.receipts[k].key == k)
  }

  lemma KeysAppend(ops: seq<Operation>, op: Operation)
    ensures Keys(ops + [op]) == Keys(ops) + [op.key]
  {
  }

  lemma DeliverOnce(gateway: Gateway, op: Operation)
    requires GatewayInv(gateway)
    ensures var (next, receipt) := Deliver(gateway, op);
      && GatewayInv(next)
      && receipt.key == op.key
      && next.receipts.Keys == gateway.receipts.Keys + {op.key}
      && gateway.deliveries <= next.deliveries
  {
    KeysAppend(gateway.deliveries, op);
  }

  // ---------- one flush, as the loop runs it ----------

  function PhaseForNetwork(network: Network, current: Phase): Phase {
    if current == OperatorTakeover || current == HumanReview || current == CompletedPhase then current
    else if network == Offline then OfflinePhase else Ready
  }

  function ApplyReceipt(session: Session, network: Network, receipt: Receipt): Session {
    var phase :=
      if receipt.disposition == ForTakeover then OperatorTakeover
      else if receipt.disposition == ForHumanReview then HumanReview
      else if receipt.contactState == ContactCompleted then CompletedPhase
      else PhaseForNetwork(network, Ready);
    session.(contactState := receipt.contactState, phase := phase,
             takeoverVisible := receipt.disposition == ForTakeover || session.takeoverVisible)
  }

  /** Set.add on a set that remembers insertion order. */
  function AddKey(keys: seq<string>, k: string): seq<string> {
    if k in keys then keys else keys + [k]
  }

  function LastKeys(keys: seq<string>): seq<string> {
    if |keys| <= ACKNOWLEDGED_WINDOW then keys else keys[|keys| - ACKNOWLEDGED_WINDOW..]
  }

  function Retried(op: Operation): Operation {
    op.(attemptCount := op.attemptCount + 1)
  }

  datatype Flushing = Flushing(gateway: Gateway, session: Session, acknowledged: seq<string>, remaining: seq<Operation>, stopped: bool)

  /** The loop body for one operation; `up` says whether the gateway answers. */
  function FlushOne(f: Flushing, network: Network, op: Operation, now: int, up: bool): Flushing {
    if f.stopped || op.expiresAt <= now || op.key in f.acknowledged then f
    else if up then
      var (gateway, receipt) := Deliver(f.gateway, op);
      f.(gateway := gateway, acknowledged := AddKey(f.acknowledged, receipt.key), session := ApplyReceipt(f.session, network, receipt))
    else f.(remaining := f.remaining + [Retried(op)], stopped := network == Degraded)
  }

  /** The state of the loop after its first n operations. */
  function FlushFirst(c: Companion, gateway: Gateway, n: nat, clock: Clock, up: nat -> bool): Flushing
    requires n <= |c.pending|
  {
    if n == 0 then Flushing(gateway, c.session, c.acknowledged, [], false)
    else FlushOne(FlushFirst(c, gateway, n - 1, clock, up), c.network, c.pending[n - 1], clock(n - 1), up(n - 1))
  }

  predicate Unhandled(remaining: seq<Operation>, acknowledged: seq<string>, candidate: Operation, now: int) {
    && (forall item | item in remaining :: item.operationId != candidate.operationId)
    && candidate.key !in acknowledged
    && candidate.expiresAt > now
  }

  /** The second pass over pending, from position i on, with fresh clock readings. */
  function Unprocessed(c: Companion, remaining: seq<Operation>, acknowledged: seq<string>, i: nat, clock: Clock): seq<Operation>
    requires i <= |c.pending|
    decreases |c.pending| - i
  {
    if i == |c.pending| then []
    else (if Unhandled(remaining, acknowledged, c.pending[i], clock(|c.pending| + i)) then [c.pending[i]] else [])
         + Unprocessed(c, remaining, acknowledged, i + 1, clock)
  }

  /** Keep the first operation of each key. */
  function UniqueOperations(ops: seq<Operation>): seq<Operation> {
    if ops == [] then []
    else
      var before := UniqueOperations(ops[..|ops| - 1]);
      var last := ops[|ops| - 1];
      if last.key in Keys(before) then before else before + [last]
  }

  function Flush(c: Companion, gateway: Gateway, clock: Clock, up: nat -> bool): (Companion, Gateway) {
    if c.network == Offline then (c, gateway)
    else
      var f := FlushFirst(c, gateway, |c.pending|, clock, up);
      (Companion(f.session, c.network, UniqueOperations(f.remaining + Unprocessed(c, f.remaining, f.acknowledged, 0, clock)), LastKeys(f.acknowledged)), f.gateway)
  }

  // ---------- one flush, read off the queue in a single pass ----------

  /** Neither expired when the loop reaches it nor acknowledged before the flush. */
  predicate Live(c: Companion, i: nat, clock: Clock)
    requires i < |c.pending|
  {
    c.pending[i].expiresAt > clock(i) && c.pending[i].key !in c.acknowledged
  }

  function LiveFrom(c: Companion, i: nat, clock: Clock): seq<Operation>
    requires i <= |c.pending|
    decreases |c.pending| - i
  {
    if i == |c.pending| then []
    else (if Live(c, i, clock) then [c.pending[i]] else []) + LiveFrom(c, i + 1, clock)
  }

  function DeliveredFrom(c: Companion, i: nat, clock: Clock, up: nat -> bool): seq<Operation>
    requires i <= |c.pending|
    decreases |c.pending| - i
  {
    if i == |c.pending| then []
    else if !Live(c, i, clock) then DeliveredFrom(c, i + 1, clock, up)
    else if up(i) then [c.pending[i]] + DeliveredFrom(c, i + 1, clock, up)
    else if c.network == Degraded then []
    else DeliveredFrom(c, i + 1, clock, up)
  }

  function UntouchedFrom(c: Companion, i: nat, clock: Clock): seq<Operation>
    requires i <= |c.pending|
    decreases |c.pending| - i
  {
    if i == |c.pending| then []
    else (if c.pending[i].expiresAt > clock(|c.pending| + i) && c.pending[i].key !in c.acknowledged then [c.pending[i]] else [])
         + UntouchedFrom(c, i + 1, clock)
  }

  function KeptFrom(c: Companion, i: nat, clock: Clock, up: nat -> bool): seq<Operation>
    requires i <= |c.pending|
    decreases |c.pending| - i
  {
    if i == |c.pending| then []
    else if !Live(c, i, clock) || up(i) then KeptFrom(c, i + 1, clock, up)
    else if c.network == Degraded then [Retried(c.pending[i])] + UntouchedFrom(c, i + 1, clock)
    else [Retried(c.pending[i])] + KeptFrom(c, i + 1, clock, up)
  }

  ghost predicate DistinctOperations(ops: seq<Operation>) {
    forall i, j | 0 <= i < j < |ops| :: ops[i].key != ops[j].key && ops[i].operationId != ops[j].operationId
  }

  function DeliverAll(gateway: Gateway, ops: seq<Operation>): Gateway
    decreases |ops|
  {
    if ops == [] then gateway else DeliverAll(Deliver(gateway, ops[0]).0, ops[1..])
  }

  /** What the loop has done after n operations without stopping, against what the single pass
      still says about the rest. */
  ghost predicate Progress(c: Companion, gateway: Gateway, f: Flushing, n: nat, clock: Clock, up: nat -> bool)
    requires n <= |c.pending|
  {
    && GatewayInv(f.gateway)
    && DeliverAll(f.gateway, DeliveredFrom(c, n, clock, up)) == DeliverAll(gateway, DeliveredFrom(c, 0, clock, up))
    && f.remaining + KeptFrom(c, n, clock, up) == KeptFrom(c, 0, clock, up)
    && f.acknowledged + Keys(DeliveredFrom(c, n, clock, up)) == c.acknowledged + Keys(DeliveredFrom(c, 0, clock, up))
    && (forall k | k in c.acknowledged :: k in f.acknowledged)
    && (forall j | n <= j < |c.pending| :: c.pending[j].key in f.acknowledged ==> c.pending[j].key in c.acknowledged)
    && (forall j | 0 <= j < n && Live(c, j, clock) :: c.pending[j].key in f.acknowledged || Retried(c.pending[j]) in f.remaining)
    && (c.network == Degraded ==> f.remaining == [])
  }

  lemma PrependDelivered(c: Companion, f: Flushing, n: nat, clock: Clock, up: nat -> bool)
    requires n < |c.pending| && Live(c, n, clock) && up(n)
    ensures var rest := DeliveredFrom(c, n + 1, clock, up);
      && Keys(DeliveredFrom(c, n, clock, up)) == [c.pending[n].key] + Keys(rest)
      && DeliverAll(f.gateway, DeliveredFrom(c, n, clock, up)) == DeliverAll(Deliver(f.gateway, c.pending[n]).0, rest)
  {
    var rest := DeliveredFrom(c, n + 1, clock, up);
    assert ([c.pending[n]] + rest)[1..] == rest;
  }

  lemma ProgressStep(c: Companion, gateway: Gateway, f: Flushing, n: nat, clock: Clock, up: nat -> bool)
    requires n < |c.pending| && DistinctOperations(c.pending) && !f.stopped && Progress(c, gateway, f, n, clock, up)
    requires !FlushOne(f, c.network, c.pending[n], clock(n), up(n)).stopped
    ensures Progress(c, gateway, FlushOne(f, c.network, c.pending[n], clock(n), up(n)), n + 1, clock, up)
  {
    var op := c.pending[n];
    var next := FlushOne(f, c.network, op, clock(n), up(n));
    if !Live(c, n, clock) {
      assert next == f;
    } else if up(n) {
      DeliverOnce(f.gateway, op);
      PrependDelivered(c, f, n, clock, up);
      assert next.acknowledged == f.acknowledged + [op.key];
    } else {
      assert next.remaining == f.remaining + [Retried(op)];
      assert KeptFrom(c, n, clock, up) == [Retried(op)] + KeptFrom(c, n + 1, clock, up);
    }
  }

  lemma {:induction false} ProgressSoFar(c: Companion, gateway: Gateway, n: nat, clock: Clock, up: nat -> bool)
    requires n <= |c.pending| && DistinctOperations(c.pending) && GatewayInv(gateway)
    requires !FlushFirst(c, gateway, n, clock, up).stopped
    ensures Progress(c, gateway, FlushFirst(c, gateway, n, clock, up), n, clock, up)
  {
    if n > 0 {
      ProgressSoFar(c, gateway, n - 1, clock, up);
      ProgressStep(c, gateway, FlushFirst(c, gateway, n - 1, clock, up), n - 1, clock, up);
    }
  }

  /** Where the loop stopped, if it did. */
  lemma {:induction false} FirstStop(c: Companion, gateway: Gateway, n: nat, clock: Clock, up: nat -> bool) returns (at: nat)
    requires n <= |c.pending| && FlushFirst(c, gateway, n, clock, up).stopped
    ensures at < n && !FlushFirst(c, gateway, at, clock, up).stopped
    ensures FlushFirst(c, gateway, n, clock, up) == FlushFirst(c, gateway, at + 1, clock, up)
  {
    if FlushFirst(c, gateway, n - 1, clock, up).stopped {
      at := FirstStop(c, gateway, n - 1, clock, up);
    } else {
      at := n - 1;
    }
  }

  /** The loop reached the end: the second pass finds nothing. */
  lemma {:induction false} NothingUnprocessed(c: Companion, f: Flushing, i: nat, clock: Clock)
    requires i <= |c.pending| && Monotone(clock)
    requires forall k | k in c.acknowledged :: k in f.acknowledged
    requires forall j | 0 <= j < |c.pending| && Live(c, j, clock) :: c.pending[j].key in f.acknowledged || Retried(c.pending[j]) in f.remaining
    ensures Unprocessed(c, f.remaining, f.acknowledged, i, clock) == []
    decreases |c.pending| - i
  {
    if i < |c.pending| {
      NothingUnprocessed(c, f, i + 1, clock);
      assert clock(i) <= clock(|c.pending| + i);
      assert Retried(c.pending[i]).operationId == c.pending[i].operationId;
    }
  }

  /** The loop stopped at `at`: the second pass skips everything up to there ... */
  lemma {:induction false} SkipHandled(c: Companion, f: Flushing, at: nat, i: nat, clock: Clock)
    requires i <= at < |c.pending| && Monotone(clock)
    requires forall k | k in c.acknowledged :: k in f.acknowledged
    requires forall j | 0 <= j < at && Live(c, j, clock) :: c.pending[j].key in f.acknowledged
    requires f.remaining == [Retried(c.pending[at])]
    ensures Unprocessed(c, f.remaining, f.acknowledged, i, clock) == Unprocessed(c, f.remaining, f.acknowledged, at + 1, clock)
    decreases at - i
  {
    assert clock(i) <= clock(|c.pending| + i);
    assert f.remaining[0].operationId == c.pending[at].operationId;
    if i < at {
      SkipHandled(c, f, at, i + 1, clock);
    }
  }

  /** ... and takes the rest as it stands. */
  lemma {:induction false} TakeUntouched(c: Companion, f: Flushing, at: nat, i: nat, clock: Clock)
    requires at < i <= |c.pending| && DistinctOperations(c.pending)
    requires forall k | k in c.acknowledged :: k in f.acknowledged
    requires forall j | at < j < |c.pending| :: c.pending[j].key in f.acknowledged ==> c.pending[j].key in c.acknowledged
    requires f.remaining == [Retried(c.pending[at])]
    ensures Unprocessed(c, f.remaining, f.acknowledged, i, clock) == UntouchedFrom(c, i, clock)
    decreases |c.pending| - i
  {
    if i < |c.pending| {
      TakeUntouched(c, f, at, i + 1, clock);
    }
  }

  // ---------- what is kept is a subsequence of the queue ----------

  predicate SameOperation(a: Operation, b: Operation) {
    a.(attemptCount := b.attemptCount) == b
  }

  /** `kept` are some operations of ops, in the same order, up to attemptCount. */
  ghost predicate KeepsOrder(kept: seq<Operation>, ops: seq<Operation>)
    decreases |ops|
  {
    || kept == []
    || (ops != [] && KeepsOrder(kept, ops[1..]))
    || (ops != [] && SameOperation(kept[0], ops[0]) && KeepsOrder(kept[1..], ops[1..]))
  }

  lemma {:induction false} UntouchedKeepsOrder(c: Companion, i: nat, clock: Clock)
    requires i <= |c.pending|
    ensures KeepsOrder(UntouchedFrom(c, i, clock), c.pending[i..])
    decreases |c.pending| - i
  {
    if i < |c.pending| {
      UntouchedKeepsOrder(c, i + 1, clock);
      var rest := UntouchedFrom(c, i + 1, clock);
      assert c.pending[i..][1..] == c.pending[i + 1..];
      assert ([c.pending[i]] + rest)[1..] == rest;
      assert [] + rest == rest;
    }
  }

  lemma {:induction false} KeptKeepsOrder(c: Companion, i: nat, clock: Clock, up: nat -> bool)
    requires i <= |c.pending|
    ensures KeepsOrder(KeptFrom(c, i, clock, up), c.pending[i..])
    decreases |c.pending| - i
  {
    if i < |c.pending| {
      assert c.pending[i..][1..] == c.pending[i + 1..];
      KeptKeepsOrder(c, i + 1, clock, up);
      if Live(c, i, clock) && !up(i) {
        UntouchedKeepsOrder(c, i + 1, clock);
        var rest := if c.network == Degraded then UntouchedFrom(c, i + 1, clock) else KeptFrom(c, i + 1, clock, up);
        assert ([Retried(c.pending[i])] + rest)[1..] == rest;
      }
    }
  }

  lemma {:induction false} KeptCameFrom(kept: seq<Operation>, ops: seq<Operation>, i: nat) returns (j: nat)
    requires KeepsOrder(kept, ops) && i < |kept|
    ensures j < |ops| && SameOperation(kept[i], ops[j])
    decreases |ops|
  {
    if KeepsOrder(kept, ops[1..]) {
      j := KeptCameFrom(kept, ops[1..], i);
      j := j + 1;
    } else if i == 0 {
      j := 0;
    } else {
      j := KeptCameFrom(kept[1..], ops[1..], i - 1);
      j := j + 1;
    }
  }

  /** Operations kept in order from a queue of distinct operations are distinct. */
  lemma {:induction false} KeptStayDistinct(kept: seq<Operation>, ops: seq<Operation>)
    requires KeepsOrder(kept, ops) && DistinctOperations(ops)
    ensures DistinctOperations(kept)
    decreases |ops|
  {
    if kept != [] {
      assert DistinctOperations(ops[1..]);
      if KeepsOrder(kept, ops[1..]) {
        KeptStayDistinct(kept, ops[1..]);
      } else {
        KeptStayDistinct(kept[1..], ops[1..]);
        forall i | 0 < i < |kept| ensures kept[i].key != kept[0].key && kept[i].operationId != kept[0].operationId {
          var j := KeptCameFrom(kept[1..], ops[1..], i - 1);
          assert ops[1..][j] == ops[j + 1] && kept[1..][i - 1] == kept[i];
        }
        forall i, j | 0 <= i < j < |kept| ensures kept[i].key != kept[j].key && kept[i].operationId != kept[j].operationId {
          if i > 0 {
            assert kept[i] == kept[1..][i - 1] && kept[j] == kept[1..][j - 1];
          }
        }
      }
    }
  }

  lemma UniqueKeepsNew(front: seq<Operation>, last: Operation)
    requires UniqueOperations(front) == front && last.key !in Keys(front)
    ensures UniqueOperations(front + [last]) == front + [last]
  {
    assert (front + [last])[..|front|] == front;
  }

  lemma LastKeyIsNew(ops: seq<Operation>)
    requires ops != [] && DistinctOperations(ops)
    ensures DistinctOperations(ops[..|ops| - 1]) && ops[|ops| - 1].key !in Keys(ops[..|ops| - 1])
  {
    var front, last := ops[..|ops| - 1], ops[|ops| - 1];
    forall i, j | 0 <= i < j < |front| ensures front[i].key != front[j].key && front[i].operationId != front[j].operationId {
      assert front[i] == ops[i] && front[j] == ops[j];
    }
    forall i | 0 <= i < |Keys(front)| ensures Keys(front)[i] != last.key {
      assert ops[i].key != ops[|front|].key;
    }
  }

  lemma {:induction false} UniqueIsIdentity(ops: seq<Operation>)
    requires DistinctOperations(ops)
    ensures UniqueOperations(ops) == ops
    decreases |ops|
  {
    if ops != [] {
      var front, last := ops[..|ops| - 1], ops[|ops| - 1];
      assert ops == front + [last];
      LastKeyIsNew(ops);
      UniqueIsIdentity(front);
      UniqueKeepsNew(front, last);
    }
  }

  // ---------- main theorems about one flush ----------

  lemma KeptDistinct(c: Companion, clock: Clock, up: nat -> bool)
    requires DistinctOperations(c.pending)
    ensures UniqueOperations(KeptFrom(c, 0, clock, up)) == KeptFrom(c, 0, clock, up)
    ensures DistinctOperations(KeptFrom(c, 0, clock, up)) && KeepsOrder(KeptFrom(c, 0, clock, up), c.pending)
  {
    KeptKeepsOrder(c, 0, clock, up);
    assert c.pending[0..] == c.pending;
    KeptStayDistinct(KeptFrom(c, 0, clock, up), c.pending);
    UniqueIsIdentity(KeptFrom(c, 0, clock, up));
  }

  /** The outcome of the loop and the second pass, before duplicates are removed. */
  ghost predicate SinglePass(c: Companion, gateway: Gateway, f: Flushing, clock: Clock, up: nat -> bool) {
    && f.remaining + Unprocessed(c, f.remaining, f.acknowledged, 0, clock) == KeptFrom(c, 0, clock, up)
    && f.acknowledged == c.acknowledged + Keys(DeliveredFrom(c, 0, clock, up))
    && f.gateway == DeliverAll(gateway, DeliveredFrom(c, 0, clock, up))
  }

  lemma LoopEnds(c: Companion, gateway: Gateway, f: Flushing, clock: Clock, up: nat -> bool)
    requires !f.stopped && Progress(c, gateway, f, |c.pending|, clock, up) && Monotone(clock)
    ensures SinglePass(c, gateway, f, clock, up)
  {
    NothingUnprocessed(c, f, 0, clock);
    assert f.remaining + [] == f.remaining && f.acknowledged + Keys([]) == f.acknowledged;
  }

  lemma LoopStops(c: Companion, gateway: Gateway, g: Flushing, at: nat, clock: Clock, up: nat -> bool)
    requires at < |c.pending| && DistinctOperations(c.pending) && Monotone(clock)
    requires !g.stopped && Progress(c, gateway, g, at, clock, up)
    requires FlushOne(g, c.network, c.pending[at], clock(at), up(at)).stopped
    ensures SinglePass(c, gateway, FlushOne(g, c.network, c.pending[at], clock(at), up(at)), clock, up)
  {
    var f := FlushOne(g, c.network, c.pending[at], clock(at), up(at));
    assert f == g.(remaining := [Retried(c.pending[at])], stopped := true);
    SkipHandled(c, f, at, 0, clock);
    TakeUntouched(c, f, at, at + 1, clock);
    assert DeliveredFrom(c, at, clock, up) == [] && g.acknowledged + Keys([]) == g.acknowledged;
    assert [] + KeptFrom(c, at, clock, up) == KeptFrom(c, at, clock, up);
  }

  /** The two-pass flush computes the single-pass reading: the operations kept, the keys
      acknowledged and the deliveries made, whatever the gateway answers. */
  lemma FlushIsSinglePass(c: Companion, gateway: Gateway, clock: Clock, up: nat -> bool)
    requires c.network != Offline && DistinctOperations(c.pending) && GatewayInv(gateway) && Monotone(clock)
    ensures var (next, nextGateway) := Flush(c, gateway, clock, up);
      && next.pending == KeptFrom(c, 0, clock, up)
      && next.acknowledged == LastKeys(c.acknowledged + Keys(DeliveredFrom(c, 0, clock, up)))
      && nextGateway == DeliverAll(gateway, DeliveredFrom(c, 0, clock, up))
  {
    var n := |c.pending|;
    var f := FlushFirst(c, gateway, n, clock, up);
    KeptDistinct(c, clock, up);
    if f.stopped {
      var at := FirstStop(c, gateway, n, clock, up);
      ProgressSoFar(c, gateway, at, clock, up);
      LoopStops(c, gateway, FlushFirst(c, gateway, at, clock, up), at, clock, up);
    } else {
      ProgressSoFar(c, gateway, n, clock, up);
      LoopEnds(c, gateway, f, clock, up);
    }
  }

  // ---------- what becomes of each operation ----------

  lemma KeysCons(op: Operation, rest: seq<Operation>)
    ensures Keys([op] + rest) == [op.key] + Keys(rest)
  {
  }

  lemma {:induction false} UntouchedFate(c: Companion, i: nat, j: nat, clock: Clock)
    requires j < |c.pending| && i <= |c.pending| && DistinctOperations(c.pending)
    ensures c.pending[j].key in Keys(UntouchedFrom(c, i, clock)) <==>
      i <= j && c.pending[j].expiresAt > clock(|c.pending| + j) && c.pending[j].key !in c.acknowledged
    decreases |c.pending| - i
  {
    if i < |c.pending| {
      UntouchedFate(c, i + 1, j, clock);
      KeysCons(c.pending[i], UntouchedFrom(c, i + 1, clock));
      assert [] + UntouchedFrom(c, i + 1, clock) == UntouchedFrom(c, i + 1, clock);
    }
  }

  /** From position i on, an operation not acknowledged before is delivered, kept, or expired by
      the second pass, and never both delivered and kept; earlier operations are neither. */
  lemma {:induction false} Fate(c: Companion, i: nat, j: nat, clock: Clock, up: nat -> bool)
    requires j < |c.pending| && i <= |c.pending| && DistinctOperations(c.pending) && Monotone(clock)
    requires c.pending[j].key !in c.acknowledged
    ensures var delivered := c.pending[j].key in Keys(DeliveredFrom(c, i, clock, up));
      var kept := c.pending[j].key in Keys(KeptFrom(c, i, clock, up));
      && !(delivered && kept)
      && (delivered || kept ==> i <= j && c.pending[j].expiresAt > clock(j))
      && (i <= j && !delivered && !kept ==> c.pending[j].expiresAt <= clock(|c.pending| + j))
    decreases |c.pending| - i
  {
    if i < |c.pending| {
      Fate(c, i + 1, j, clock, up);
      UntouchedFate(c, i + 1, j, clock);
      KeysCons(c.pending[i], DeliveredFrom(c, i + 1, clock, up));
      KeysCons(Retried(c.pending[i]), KeptFrom(c, i + 1, clock, up));
      KeysCons(Retried(c.pending[i]), UntouchedFrom(c, i + 1, clock));
      assert clock(j) <= clock(|c.pending| + j);
    }
  }

  lemma {:induction false} DeliveredIsShort(c: Companion, i: nat, clock: Clock, up: nat -> bool)
    requires i <= |c.pending|
    ensures |DeliveredFrom(c, i, clock, up)| <= |c.pending| - i
    decreases |c.pending| - i
  {
    if i < |c.pending| {
      DeliveredIsShort(c, i + 1, clock, up);
    }
  }

  /** The window of 200 acknowledged keys always holds every key delivered by this flush. */
  lemma WindowHoldsDelivered(c: Companion, k: string, clock: Clock, up: nat -> bool)
    requires |c.pending| <= MAX_QUEUE && k !in c.acknowledged
    ensures k in LastKeys(c.acknowledged + Keys(DeliveredFrom(c, 0, clock, up))) <==> k in Keys(DeliveredFrom(c, 0, clock, up))
  {
    DeliveredIsShort(c, 0, clock, up);
    var delivered := Keys(DeliveredFrom(c, 0, clock, up));
    var all := c.acknowledged + delivered;
    if k in delivered {
      var d :| 0 <= d < |delivered| && delivered[d] == k;
      assert all[|c.acknowledged| + d] == k;
      if |all| > ACKNOWLEDGED_WINDOW {
        assert LastKeys(all)[|c.acknowledged| + d - (|all| - ACKNOWLEDGED_WINDOW)] == k;
      }
    }
  }

  ghost predicate Flushable(c: Companion, gateway: Gateway) {
    && c.network != Offline && DistinctOperations(c.pending) && GatewayInv(gateway) && |c.pending| <= MAX_QUEUE
    && forall j | 0 <= j < |c.pending| :: c.pending[j].key !in c.acknowledged
  }

  /** The new queue is the old one with operations left out, in the same order, up to attemptCount. */
  lemma FlushKeepsOrder(c: Companion, gateway: Gateway, clock: Clock, up: nat -> bool)
    requires Flushable(c, gateway) && Monotone(clock)
    ensures KeepsOrder(Flush(c, gateway, clock, up).0.pending, c.pending)
    ensures DistinctOperations(Flush(c, gateway, clock, up).0.pending)
  {
    FlushIsSinglePass(c, gateway, clock, up);
    KeptDistinct(c, clock, up);
  }

  /** At one clock reading, each operation of the old queue is exactly one of: kept, acknowledged, expired. */
  lemma FlushPartition(c: Companion, gateway: Gateway, now: int, up: nat -> bool, j: nat)
    requires Flushable(c, gateway) && j < |c.pending|
    ensures var next := Flush(c, gateway, _ => now, up).0;
      var kept := c.pending[j].key in Keys(next.pending);
      var acknowledged := c.pending[j].key in next.acknowledged;
      var expired := c.pending[j].expiresAt <= now;
      && (kept || acknowledged || expired)
      && !(kept && acknowledged) && !(kept && expired) && !(acknowledged && expired)
  {
    FlushIsSinglePass(c, gateway, _ => now, up);
    Fate(c, 0, j, _ => now, up);
    WindowHoldsDelivered(c, c.pending[j].key, _ => now, up);
  }

  /** With the clock running during the flush: nothing unexpired is lost. */
  lemma FlushLosesNothing(c: Companion, gateway: Gateway, clock: Clock, up: nat -> bool, j: nat)
    requires Flushable(c, gateway) && Monotone(clock) && j < |c.pending|
    ensures var next := Flush(c, gateway, clock, up).0;
      || c.pending[j].key in Keys(next.pending)
      || c.pending[j].key in next.acknowledged
      || c.pending[j].expiresAt <= clock(|c.pending| + j)
  {
    FlushIsSinglePass(c, gateway, clock, up);
    Fate(c, 0, j, clock, up);
    WindowHoldsDelivered(c, c.pending[j].key, clock, up);
  }

  lemma {:induction false} DegradedStopsAtFailure(c: Companion, i: nat, clock: Clock, up: nat -> bool)
    requires i <= |c.pending| && c.network == Degraded
    ensures DeliveredFrom(c, i, clock, up) <= LiveFrom(c, i, clock)
    decreases |c.pending| - i
  {
    if i < |c.pending| {
      DegradedStopsAtFailure(c, i + 1, clock, up);
    }
  }

  /** On a degraded network the operations handed to the gateway are a prefix of the live queue:
      nothing overtakes the first operation that fails. */
  lemma DegradedDeliversPrefix(c: Companion, gateway: Gateway, clock: Clock, up: nat -> bool)
    requires Flushable(c, gateway) && Monotone(clock) && c.network == Degraded
    ensures exists n ::
      && 0 <= n <= |LiveFrom(c, 0, clock)|
      && Flush(c, gateway, clock, up).1 == DeliverAll(gateway, LiveFrom(c, 0, clock)[..n])
      && Flush(c, gateway, clock, up).0.acknowledged == LastKeys(c.acknowledged + Keys(LiveFrom(c, 0, clock)[..n]))
  {
    FlushIsSinglePass(c, gateway, clock, up);
    DegradedStopsAtFailure(c, 0, clock, up);
    var delivered := DeliveredFrom(c, 0, clock, up);
    assert LiveFrom(c, 0, clock)[..|delivered|] == delivered;
  }

  // ---------- what a flush does to the gateway ----------

  lemma {:induction false} DeliverAllKeys(gateway: Gateway, ops: seq<Operation>)
    requires GatewayInv(gateway)
    ensures GatewayInv(DeliverAll(gateway, ops))
    ensures forall k :: k in DeliverAll(gateway, ops).receipts <==> k in gateway.receipts || k in Keys(ops)
    decreases |ops|
  {
    if ops != [] {
      DeliverOnce(gateway, ops[0]);
      DeliverAllKeys(Deliver(gateway, ops[0]).0, ops[1..]);
      assert ops == [ops[0]] + ops[1..];
      KeysCons(ops[0], ops[1..]);
    }
  }

  /** Even when the loop is cut short, the gateway has only gained keys of the queue. */
  lemma {:induction false} CutKeys(c: Companion, gateway: Gateway, n: nat, clock: Clock, up: nat -> bool)
    requires n <= |c.pending| && GatewayInv(gateway)
    ensures var g := FlushFirst(c, gateway, n, clock, up).gateway;
      && GatewayInv(g)
      && (forall k | k in gateway.receipts :: k in g.receipts)
      && (forall k | k in g.receipts && k !in gateway.receipts :: k in Keys(c.pending))
  {
    if n > 0 {
      CutKeys(c, gateway, n - 1, clock, up);
      var f := FlushFirst(c, gateway, n - 1, clock, up);
      DeliverOnce(f.gateway, c.pending[n - 1]);
      assert Keys(c.pending)[n - 1] == c.pending[n - 1].key;
    }
  }
}
