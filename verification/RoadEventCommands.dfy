/** The version-checked commands inside executeIdempotently: what a command does to the store happens
    while its request runs its operation. */
module RoadEventCommands {
  import opened Wrappers
  import opened RoadEvents
  import opened RoadEventStore
  import Answers = IdempotentExecution
  import Events = RoadEventRuns

  type RequestId = nat

  datatype Command = Command(eventId: string, expectedVersion: nat, mutation: Mutation, now: int, scope: Scope, actorId: Option<string>)

  /** A history variable: an event that a request has changed. */
  datatype Change = Change(id: RequestId, composite: string, before: RoadEvent, after: RoadEvent)

  datatype System = System(answers: Answers.System<RoadEvent>, events: Events.System, changes: seq<Change>)

  const START := System(Answers.Start(), Events.START, [])

  /** Awaiting gives way to the steps of other requests between any two of these. */
  datatype Step =
    | OpenEvent(open: Events.Step)
    | Request(step: Answers.Step<RoadEvent>)
    | LoadEvent(id: RequestId, command: Command)
    | SaveEvent(id: RequestId)

  predicate Running(sys: System, id: RequestId) {
    id in sys.answers.progress && sys.answers.progress[id].phase.Running?
  }

  /** The operation ends; None when it throws. */
  function Ended(sys: System, id: RequestId, made: Option<RoadEvent>): Answers.System<RoadEvent> {
    Answers.Perform(sys.answers, Answers.Operate(id, made))
  }

  function LoadOf(id: RequestId, c: Command): Events.Step {
    Events.Load(id, c.eventId, c.expectedVersion, c.mutation, c.now, c.scope, c.actorId)
  }

  predicate Loads(sys: System, c: Command) {
    Events.Loaded(sys.events.store, c.eventId, c.expectedVersion, c.mutation, c.now, c.scope, c.actorId).Some?
  }

  predicate Saves(sys: System, id: RequestId)
    requires id in sys.events.pending
  {
    Events.SaveResult(sys.events, id).1.Success?
  }

  function Perform(sys: System, step: Step): System {
    match step
    case OpenEvent(open) => if open.Open? then sys.(events := Events.Perform(sys.events, open)) else sys
    case Request(s) => if s.Operate? then sys else sys.(answers := Answers.Perform(sys.answers, s))
    case LoadEvent(id, command) =>
      if !Running(sys, id) || id in sys.events.pending then sys
      else if !Loads(sys, command) then sys.(answers := Ended(sys, id, None))
      else sys.(events := Events.Perform(sys.events, LoadOf(id, command)))
    case SaveEvent(id) =>
      if !Running(sys, id) || id !in sys.events.pending then sys
      else
        var p := sys.events.pending[id];
        var saved := Saves(sys, id);
        System(Ended(sys, id, if saved then Some(p.changed) else None), Events.Perform(sys.events, Events.Save(id)),
               if saved then sys.changes + [Change(id, sys.answers.progress[id].Key(), p.base, p.changed)] else sys.changes)
  }

  function PerformAll(sys: System, steps: seq<Step>): System
    decreases |steps|
  {
    if steps == [] then sys else PerformAll(Perform(sys, steps[0]), steps[1..])
  }

  // ---------- both parts run as they do alone ----------

  function AnswerStep(sys: System, step: Step): seq<Answers.Step<RoadEvent>> {
    match step
    case OpenEvent(_) => []
    case Request(s) => if s.Operate? then [] else [s]
    case LoadEvent(id, command) => if Running(sys, id) && id !in sys.events.pending && !Loads(sys, command) then [Answers.Operate(id, None)] else []
    case SaveEvent(id) =>
      if !Running(sys, id) || id !in sys.events.pending then []
      else [Answers.Operate(id, if Saves(sys, id) then Some(sys.events.pending[id].changed) else None)]
  }

  function AnswerSteps(sys: System, steps: seq<Step>): seq<Answers.Step<RoadEvent>>
    decreases |steps|
  {
    if steps == [] then [] else AnswerStep(sys, steps[0]) + AnswerSteps(Perform(sys, steps[0]), steps[1..])
  }

  function EventStep(sys: System, step: Step): seq<Events.Step> {
    match step
    case OpenEvent(open) => if open.Open? then [open] else []
    case Request(_) => []
    case LoadEvent(id, command) => if Running(sys, id) && id !in sys.events.pending && Loads(sys, command) then [LoadOf(id, command)] else []
    case SaveEvent(id) => if Running(sys, id) && id in sys.events.pending then [Events.Save(id)] else []
  }

  function EventSteps(sys: System, steps: seq<Step>): seq<Events.Step>
    decreases |steps|
  {
    if steps == [] then [] else EventStep(sys, steps[0]) + EventSteps(Perform(sys, steps[0]), steps[1..])
  }

  lemma {:induction false} AnswersRunAlone(sys: System, steps: seq<Step>)
    ensures PerformAll(sys, steps).answers == Answers.PerformAll(sys.answers, AnswerSteps(sys, steps))
    decreases |steps|
  {
    if steps != [] {
      var first, next := AnswerStep(sys, steps[0]), Perform(sys, steps[0]);
      AnswersRunAlone(next, steps[1..]);
      Answers.PerformAppend(sys.answers, first, AnswerSteps(next, steps[1..]));
      if first != [] {
        assert first[1..] == [] && first == [first[0]];
      }
      assert Answers.PerformAll(sys.answers, first) == next.answers;
    }
  }

  lemma {:induction false} EventsRunAlone(sys: System, steps: seq<Step>)
    ensures PerformAll(sys, steps).events == Events.PerformAll(sys.events, EventSteps(sys, steps))
    decreases |steps|
  {
    if steps != [] {
      var first, next := EventStep(sys, steps[0]), Perform(sys, steps[0]);
      EventsRunAlone(next, steps[1..]);
      Events.RunAppend(sys.events, first, EventSteps(next, steps[1..]));
      if first != [] {
        assert first[1..] == [] && first == [first[0]];
      }
      assert Events.PerformAll(sys.events, first) == next.events;
    }
  }

  // ---------- changes and executions ----------

  ghost predicate Matches(change: Change, e: Answers.Execution<RoadEvent>) {
    change.id == e.id && change.composite == e.composite && change.after == e.value
  }

  /** Each operation that succeeded changed one event, and made that event. */
  ghost predicate ChangesInv(sys: System) {
    && |sys.changes| == |sys.answers.executions|
    && forall i | 0 <= i < |sys.changes| :: Matches(sys.changes[i], sys.answers.executions[i])
  }

  lemma StepKeepsChanges(sys: System, step: Step)
    requires ChangesInv(sys)
    ensures ChangesInv(Perform(sys, step))
  {
    match step
    case OpenEvent(_) =>
    case Request(s) => QuietStepExecutesNothing(sys.answers, s);
    case LoadEvent(id, _) =>
    case SaveEvent(id) =>
  }

  lemma QuietStepExecutesNothing(sys: Answers.System<RoadEvent>, step: Answers.Step<RoadEvent>)
    ensures !step.Operate? ==> Answers.Perform(sys, step).executions == sys.executions
  {
  }

  lemma {:induction false} RunKeepsChanges(sys: System, steps: seq<Step>)
    requires ChangesInv(sys)
    ensures ChangesInv(PerformAll(sys, steps))
    decreases |steps|
  {
    if steps != [] {
      StepKeepsChanges(sys, steps[0]);
      RunKeepsChanges(Perform(sys, steps[0]), steps[1..]);
    }
  }

  // ---------- main theorems ----------

  /** However often a command is sent again with its key, in whatever interleaving, it changes at most
      one event, once. */
  lemma KeyChangesOnce(steps: seq<Step>, i: nat, j: nat)
    requires i < j < |PerformAll(START, steps).changes|
    ensures PerformAll(START, steps).changes[i].composite != PerformAll(START, steps).changes[j].composite
  {
    var sys := PerformAll(START, steps);
    RunKeepsChanges(START, steps);
    AnswersRunAlone(START, steps);
    Answers.ExecutedAtMostOnce(AnswerSteps(START, steps), i, j);
    assert Matches(sys.changes[i], sys.answers.executions[i]) && Matches(sys.changes[j], sys.answers.executions[j]);
  }

  ghost predicate Made(sys: System, composite: string, event: RoadEvent) {
    exists i :: 0 <= i < |sys.changes| && sys.changes[i].composite == composite && sys.changes[i].after == event
  }

  /** A request that returns an event returns what the one change for its key made; so every retry
      returns that same event. */
  lemma RetriesReturnTheChange(steps: seq<Step>, id: RequestId)
    requires var p := PerformAll(START, steps).answers.progress; id in p && p[id].phase.Done? && p[id].phase.outcome.Success?
    ensures var sys := PerformAll(START, steps); Made(sys, sys.answers.progress[id].Key(), sys.answers.progress[id].phase.outcome.value)
  {
    var sys := PerformAll(START, steps);
    RunKeepsChanges(START, steps);
    AnswersRunAlone(START, steps);
    Answers.AnswersComeFromTheExecution(AnswerSteps(START, steps), id);
    var p := sys.answers.progress[id];
    var record := Answers.Record(p.request.fingerprint, p.phase.outcome.value);
    var i :| 0 <= i < |sys.answers.executions| && Answers.Matches(sys.answers.executions[i], p.Key(), record);
    assert Matches(sys.changes[i], sys.answers.executions[i]);
  }

  /** Two requests that return an event for one key return the same one. */
  lemma SameKeySameEvent(steps: seq<Step>, a: RequestId, b: RequestId)
    requires var p := PerformAll(START, steps).answers.progress;
      && a in p && p[a].phase.Done? && p[a].phase.outcome.Success? && b in p && p[b].phase.Done? && p[b].phase.outcome.Success?
      && p[a].Key() == p[b].Key()
    ensures var p := PerformAll(START, steps).answers.progress; p[a].phase.outcome == p[b].phase.outcome
  {
    var sys := PerformAll(START, steps);
    RetriesReturnTheChange(steps, a);
    RetriesReturnTheChange(steps, b);
    var key := sys.answers.progress[a].Key();
    var i :| 0 <= i < |sys.changes| && sys.changes[i].composite == key && sys.changes[i].after == sys.answers.progress[a].phase.outcome.value;
    var j :| 0 <= j < |sys.changes| && sys.changes[j].composite == key && sys.changes[j].after == sys.answers.progress[b].phase.outcome.value;
    if i < j {
      KeyChangesOnce(steps, i, j);
    } else if j < i {
      KeyChangesOnce(steps, j, i);
    }
  }

  ghost predicate ChangedExactlyWhenLogged(sys: System, next: System, eventId: string)
    requires eventId in sys.events.store.events
  {
    var before := sys.events.store.events[eventId];
    && eventId in next.events.store.events
    && (next.events.store.events[eventId] != before <==>
        && |next.changes| == |sys.changes| + 1
        && next.changes[|sys.changes|].before == before
        && next.changes[|sys.changes|].after == next.events.store.events[eventId]
        && next.events.store.events[eventId].version == before.version + 1)
  }

  lemma StoredUnderItsId(steps: seq<Events.Step>, eventId: string)
    requires eventId in Events.PerformAll(Events.START, steps).store.events
    ensures Events.PerformAll(Events.START, steps).store.events[eventId].id == eventId
  {
    Events.RunKeepsInv(Events.START, steps);
    assert Events.EventInv(Events.PerformAll(Events.START, steps).store, eventId);
  }

  /** A step changes a stored event exactly when it appends to the changes, which then say how: the
      stored event is the one loaded, and is replaced by its mutation, one version later. */
  lemma ChangesAreTheMutations(steps: seq<Step>, step: Step, eventId: string)
    requires eventId in PerformAll(START, steps).events.store.events
    ensures ChangedExactlyWhenLogged(PerformAll(START, steps), Perform(PerformAll(START, steps), step), eventId)
  {
    var sys := PerformAll(START, steps);
    EventsRunAlone(START, steps);
    StoredUnderItsId(EventSteps(START, steps), eventId);
    if step.SaveEvent? && Running(sys, step.id) && step.id in sys.events.pending {
      Events.SavesAreAtomic(EventSteps(START, steps), step.id);
      SavedEvent(sys, step.id, eventId);
    } else if step.OpenEvent? {
      OpenChangesNone(sys, step.open, eventId);
    } else {
      assert Perform(sys, step).events.store == sys.events.store && Perform(sys, step).changes == sys.changes;
    }
  }

  lemma SavedEvent(sys: System, id: RequestId, eventId: string)
    requires eventId in sys.events.store.events && Running(sys, id) && id in sys.events.pending
    requires var p, r := sys.events.pending[id], Events.SaveResult(sys.events, id);
      && p.base.id in sys.events.store.events
      && (r.1.Success? <==> sys.events.store.events[p.base.id] == p.base)
      && (r.1.Success? ==> r.0.events == sys.events.store.events[p.base.id := p.changed] && p.changed.version == p.base.version + 1)
      && (!r.1.Success? ==> r.0 == sys.events.store)
    requires sys.events.store.events[eventId].id == eventId
    ensures ChangedExactlyWhenLogged(sys, Perform(sys, SaveEvent(id)), eventId)
  {
  }

  lemma OpenChangesNone(sys: System, open: Events.Step, eventId: string)
    requires eventId in sys.events.store.events
    ensures var next := Perform(sys, OpenEvent(open));
      eventId in next.events.store.events && next.events.store.events[eventId] == sys.events.store.events[eventId] && next.changes == sys.changes
  {
  }
}
