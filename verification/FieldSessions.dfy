/** What the person in the field is shown: the session after the gateway's answers, and over whole runs. */
module FieldSessions {
  import opened Wrappers
  import opened FieldQueue
  import opened FieldPositions
  import opened FieldFates
  import opened FieldRuns

  /** A reply that asks for help, or says that its sender cannot speak, calls for an operator. */
  ghost predicate CallsOperator(op: Operation) {
    op.payload.StructuredReply? && (HelpRequested in op.payload.selected || CannotSpeak in op.payload.selected)
  }

  ghost predicate CallsReviewer(op: Operation) {
    || op.payload == Consent(false)
    || (op.payload.StructuredReply? && Unknown in op.payload.selected && !CallsOperator(op))
  }

  /** What the session says once this operation was the last to be answered, by a gateway that may have
      known its key before. */
  ghost predicate Shows(session: Session, op: Operation, gateway: Gateway) {
    if op.key in gateway.receipts then
      var known := gateway.receipts[op.key].contactState;
      session.contactState == known && session.phase == if known == ContactCompleted then CompletedPhase else Ready
    else if CallsOperator(op) then session.contactState == TakenOver && session.phase == OperatorTakeover
    else if CallsReviewer(op) then session.contactState == UnderHumanReview && session.phase == HumanReview
    else session.contactState == AwaitingResponse && session.phase == Ready
  }

  ghost predicate SameOtherwise(session: Session, other: Session) {
    && session.language == other.language && session.consent == other.consent
    && session.allowedReplyOptions == other.allowedReplyOptions && session.promptActive == other.promptActive
  }

  /** The loop comes to position j, the operation is live, not answered before, and the gateway answers it. */
  ghost predicate AnsweredAt(c: Companion, clock: Clock, up: nat -> bool, j: nat)
    requires j < |c.pending|
  {
    Reaches(c, clock, up, j) && Live(c, j, clock) && up(j) && !Answered(c, clock, up, j, c.pending[j].key)
  }

  /** The last position below n at which an operation was answered. */
  ghost predicate LastAnswered(c: Companion, clock: Clock, up: nat -> bool, n: nat, last: Option<nat>)
    requires n <= |c.pending|
  {
    match last
    case None => forall j: nat | j < n :: !AnsweredAt(c, clock, up, j)
    case Some(j) => j < n && AnsweredAt(c, clock, up, j) && forall i: nat | j < i < n :: !AnsweredAt(c, clock, up, i)
  }

  // ---------- one flush ----------

  lemma TurnShows(f: Flushing, network: Network, op: Operation, now: int, up: bool)
    requires network != Offline
    ensures var next := FlushOne(f, network, op, now, up);
      if Attempts(f, op, now) && up then
        && Shows(next.session, op, f.gateway) && SameOtherwise(next.session, f.session)
        && (next.session.takeoverVisible <==> f.session.takeoverVisible || (op.key !in f.gateway.receipts && CallsOperator(op)))
      else next.session == f.session
  {
  }

  lemma {:induction false} KnownStaysKnown(c: Companion, gateway: Gateway, clock: Clock, up: nat -> bool, n: nat, key: string)
    requires n <= |c.pending| && key in gateway.receipts
    ensures var receipts := FlushFirst(c, gateway, n, clock, up).gateway.receipts; key in receipts && receipts[key] == gateway.receipts[key]
  {
    if n > 0 {
      KnownStaysKnown(c, gateway, clock, up, n - 1, key);
    }
  }

  /** What one turn at position n does to the session, told from the queue and the gateway before the flush. */
  lemma TurnShowsAt(c: Companion, gateway: Gateway, clock: Clock, up: nat -> bool, n: nat)
    requires n < |c.pending| && GatewayInv(gateway) && c.network != Offline
    ensures var session, next := FlushFirst(c, gateway, n, clock, up).session, FlushFirst(c, gateway, n + 1, clock, up).session;
      if AnsweredAt(c, clock, up, n) then
        && Shows(next, c.pending[n], gateway) && SameOtherwise(next, session)
        && (next.takeoverVisible <==> session.takeoverVisible || (c.pending[n].key !in gateway.receipts && CallsOperator(c.pending[n])))
      else next == session
  {
    var f, op := FlushFirst(c, gateway, n, clock, up), c.pending[n];
    LoopKnowsSoFar(c, gateway, clock, up, n);
    LoopTries(c, gateway, f, clock, up, n);
    TurnShows(f, c.network, op, clock(n), up(n));
    if op.key in gateway.receipts {
      KnownStaysKnown(c, gateway, clock, up, n, op.key);
    }
  }

  lemma NextLastAnswered(c: Companion, clock: Clock, up: nat -> bool, n: nat, last: Option<nat>)
    requires n < |c.pending| && LastAnswered(c, clock, up, n, last)
    ensures LastAnswered(c, clock, up, n + 1, if AnsweredAt(c, clock, up, n) then Some(n) else last)
  {
  }

  /** The session after the last answer, if there was one. */
  ghost predicate ShowsLast(session: Session, c: Companion, gateway: Gateway, last: Option<nat>) {
    match last
    case None => session == c.session
    case Some(j) => j < |c.pending| && Shows(session, c.pending[j], gateway) && SameOtherwise(session, c.session)
  }

  lemma {:induction false} SessionSoFar(c: Companion, gateway: Gateway, clock: Clock, up: nat -> bool, n: nat) returns (last: Option<nat>)
    requires n <= |c.pending| && GatewayInv(gateway) && c.network != Offline
    ensures LastAnswered(c, clock, up, n, last)
    ensures ShowsLast(FlushFirst(c, gateway, n, clock, up).session, c, gateway, last)
  {
    if n == 0 {
      last := None;
    } else {
      var before := SessionSoFar(c, gateway, clock, up, n - 1);
      last := if AnsweredAt(c, clock, up, n - 1) then Some(n - 1) else before;
      NextLastAnswered(c, clock, up, n - 1, before);
      TurnShowsAt(c, gateway, clock, up, n - 1);
    }
  }

  /** One of the deliveries from the n-th on calls for an operator. */
  ghost predicate OperatorCalled(deliveries: seq<Operation>, n: nat) {
    exists m: nat | n <= m < |deliveries| :: CallsOperator(deliveries[m])
  }

  lemma CalledNext(deliveries: seq<Operation>, n: nat, op: Operation)
    requires n <= |deliveries|
    ensures OperatorCalled(deliveries + [op], n) <==> OperatorCalled(deliveries, n) || CallsOperator(op)
  {
    if OperatorCalled(deliveries, n) {
      var m: nat :| n <= m < |deliveries| && CallsOperator(deliveries[m]);
      assert (deliveries + [op])[m] == deliveries[m];
    }
    if CallsOperator(op) {
      assert (deliveries + [op])[|deliveries|] == op;
    }
  }

  lemma {:induction false} TakeoverSoFar(c: Companion, gateway: Gateway, clock: Clock, up: nat -> bool, n: nat)
    requires n <= |c.pending| && c.network != Offline
    ensures var f := FlushFirst(c, gateway, n, clock, up);
      && gateway.deliveries <= f.gateway.deliveries
      && (f.session.takeoverVisible <==> c.session.takeoverVisible || OperatorCalled(f.gateway.deliveries, |gateway.deliveries|))
  {
    if n > 0 {
      TakeoverSoFar(c, gateway, clock, up, n - 1);
      var f, op := FlushFirst(c, gateway, n - 1, clock, up), c.pending[n - 1];
      TurnShows(f, c.network, op, clock(n - 1), up(n - 1));
      OneTurn(f, c.network, op, clock(n - 1), up(n - 1));
      CalledNext(f.gateway.deliveries, |gateway.deliveries|, op);
    }
  }

  /** Contact state and phase are those of the last operation that was answered; without an answer the
      session is as it was.  An answer to a key that the gateway knew brings back the contact state of its
      first receipt, but no longer its phase. */
  lemma FlushShowsLastAnswer(c: Companion, gateway: Gateway, clock: Clock, up: nat -> bool) returns (last: Option<nat>)
    requires GatewayInv(gateway) && c.network != Offline
    ensures LastAnswered(c, clock, up, |c.pending|, last)
    ensures ShowsLast(Flush(c, gateway, clock, up).0.session, c, gateway, last)
  {
    last := SessionSoFar(c, gateway, clock, up, |c.pending|);
  }

  /** After a flush a takeover is visible exactly when it was before or the flush itself handed the gateway
      a reply that calls for an operator. */
  lemma TakeoverShownExactlyWhen(c: Companion, gateway: Gateway, clock: Clock, up: nat -> bool)
    requires c.network != Offline
    ensures var (next, nextGateway) := Flush(c, gateway, clock, up);
      && gateway.deliveries <= nextGateway.deliveries
      && (next.session.takeoverVisible <==>
            || c.session.takeoverVisible
            || exists m: nat | |gateway.deliveries| <= m < |nextGateway.deliveries| :: CallsOperator(nextGateway.deliveries[m]))
  {
    TakeoverSoFar(c, gateway, clock, up, |c.pending|);
  }

  // ---------- what the companion's methods make of the session ----------

  /** Consent, a choice of language and a reply move the contact on or put it under review, a takeover and the end
      of the contact close the prompt, and a change of the network moves the phase unless people have the case. */
  lemma ChangesMean(c: Companion, change: SessionChange)
    ensures var s, t := c.session, Changed(c, change).session;
      var byNetwork := if c.network == Offline then OfflinePhase else Ready;
      match change
      case ConsentAnswered(true, at) =>
        t == s.(consent := Granted(at), contactState := SelectingLanguage, phase := byNetwork, promptActive := true, allowedReplyOptions := [Yes, No])
      case ConsentAnswered(false, at) =>
        t == s.(consent := Declined(at), contactState := UnderHumanReview, phase := HumanReview, promptActive := false, allowedReplyOptions := [])
      case LanguageSelected(language) =>
        t == s.(language := language, contactState := AwaitingResponse, promptActive := true,
                allowedReplyOptions := [Yes, No, CannotSpeak, HelpRequested, ReplyOption.Unknown])
      case Replied(selected) =>
        if HelpRequested in selected || CannotSpeak in selected then t == s.(contactState := UnderHumanReview, phase := HumanReview)
        else t == s.(contactState := PartialResponse, phase := byNetwork)
      case DeviceUpdated(network) =>
        && Changed(c, change) == c.(network := network, session := t)
        && t == s.(phase := if s.phase in {OperatorTakeover, HumanReview, CompletedPhase} then s.phase
                            else if network == Offline then OfflinePhase else Ready)
      case TakeoverReceived =>
        t == s.(contactState := TakenOver, phase := OperatorTakeover, takeoverVisible := true, promptActive := false, allowedReplyOptions := [])
      case ContactEnded =>
        t == s.(contactState := ContactCompleted, phase := CompletedPhase, promptActive := false, allowedReplyOptions := [])
  {
  }

  // ---------- whole runs ----------

  ghost predicate Visible(w: World) {
    w.running.Some? && w.running.value.session.takeoverVisible
  }

  lemma StepKeepsTakeover(w: World, e: Event)
    requires Inv(w) && Enabled(w, e) && Visible(w)
    ensures var next := Step(w, e); next.running.Some? ==> Visible(next)
  {
    if e.FlushQueue? {
      TakeoverShownExactlyWhen(w.running.value, w.gateway, e.clock, e.up);
    }
  }

  /** Stored, and shown by the process if one runs. */
  ghost predicate TakeoverSaved(w: World) {
    w.storage.Some? && w.storage.value.state.session.takeoverVisible && (w.running.Some? ==> Visible(w))
  }

  /** Every boot comes at most 24 hours after the last save. */
  ghost predicate BootsInTime(w: World, events: seq<Event>)
    requires ValidRun(w, events)
    decreases |events|
  {
    events == [] ||
      (&& (events[0].Boot? && w.storage.Some? ==> w.now - w.storage.value.savedAt <= LOCAL_RETENTION_MS)
       && BootsInTime(Step(w, events[0]), events[1..]))
  }

  lemma {:induction false} SavedTakeoverKept(w: World, events: seq<Event>)
    requires Inv(w) && ValidRun(w, events) && BootsInTime(w, events) && TakeoverSaved(w)
    ensures TakeoverSaved(RunAll(w, events))
    decreases |events|
  {
    if events != [] {
      StepKeepsInv(w, events[0]);
      if w.running.Some? {
        StepKeepsTakeover(w, events[0]);
      }
      SavedTakeoverKept(Step(w, events[0]), events[1..]);
    }
  }

  lemma {:induction false} ShownTakeoverKept(w: World, events: seq<Event>)
    requires Inv(w) && ValidRun(w, events) && Visible(w) && forall e | e in events :: !e.Crash? && !e.FlushCut?
    ensures Visible(RunAll(w, events))
    decreases |events|
  {
    if events != [] {
      StepKeepsInv(w, events[0]);
      StepKeepsTakeover(w, events[0]);
      ShownTakeoverKept(Step(w, events[0]), events[1..]);
    }
  }

  /** In every run, a takeover that is shown stays shown as long as the process runs, and one that was saved
      also across crashes, as long as no boot comes more than 24 hours after the last save. */
  lemma TakeoverStaysVisible(identity: Identity, now: int, before: seq<Event>, events: seq<Event>)
    requires ValidRun(FirstStart(identity, now), before) && ValidRun(RunAll(FirstStart(identity, now), before), events)
    ensures var w := RunAll(FirstStart(identity, now), before);
      && (Visible(w) && (forall e | e in events :: !e.Crash? && !e.FlushCut?) ==> Visible(RunAll(w, events)))
      && (TakeoverSaved(w) && BootsInTime(w, events) ==> TakeoverSaved(RunAll(w, events)))
  {
    RunKeepsInv(FirstStart(identity, now), before);
    var w := RunAll(FirstStart(identity, now), before);
    if Visible(w) && forall e | e in events :: !e.Crash? && !e.FlushCut? {
      ShownTakeoverKept(w, events);
    }
    if TakeoverSaved(w) && BootsInTime(w, events) {
      SavedTakeoverKept(w, events);
    }
  }

  /** The loop over a queue of one that the gateway answers. */
  lemma FlushOfOne(c: Companion, gateway: Gateway, clock: Clock)
    requires |c.pending| == 1 && c.network != Offline && GatewayInv(gateway)
    requires Live(c, 0, clock) && c.pending[0].key in gateway.receipts
    ensures var (next, nextGateway) := Flush(c, gateway, clock, _ => true);
      nextGateway == gateway && next.session.takeoverVisible == c.session.takeoverVisible && Shows(next.session, c.pending[0], gateway)
  {
    var f := FlushFirst(c, gateway, 0, clock, _ => true);
    TurnShows(f, c.network, c.pending[0], clock(0), true);
    assert FlushFirst(c, gateway, 1, clock, _ => true) == FlushOne(f, c.network, c.pending[0], clock(0), true);
  }

  /** When the answer to a call for an operator is lost, the next flush gets the same contact state from a
      gateway that knows the key, but the takeover is not shown. */
  lemma LostAnswerHidesTakeover(w: World, clock: Clock)
    requires Inv(w) && w.running.Some? && |w.running.value.pending| == 1 && CallsOperator(w.running.value.pending[0])
    requires !Visible(w) && w.running.value.pending[0].key !in w.gateway.receipts && w.running.value.pending[0].expiresAt > clock(0)
    requires Enabled(w, FlushQueue(clock, _ => true))
    ensures Enabled(w, LostAnswer(0)) && Enabled(Step(w, LostAnswer(0)), FlushQueue(clock, _ => true))
    ensures var next := Step(Step(w, LostAnswer(0)), FlushQueue(clock, _ => true));
      && w.running.value.pending[0] in next.gateway.deliveries && next.running.Some? && !Visible(next)
      && next.running.value.session.contactState == TakenOver && next.running.value.session.phase == Ready
  {
    var c, op := w.running.value, w.running.value.pending[0];
    DeliverOnce(w.gateway, op);
    FlushOfOne(c, Deliver(w.gateway, op).0, clock);
  }
}
