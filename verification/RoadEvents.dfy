/** RoadEvent: what its constructor admits and what its three mutators do.  The repository hands out
    and keeps clones only, so an event is a value here. */
module RoadEvents {
  import opened Wrappers

  const MAX_CLOCK_SKEW_MS := 5 * 60 * 1000

  datatype Status =
    | Detected | Validating | Confirmed | SafetyAssessment | ResponseCoordination | RoadClearance | Recovery
    | Closed | FalsePositive | Duplicate | UnderReview | TransferredToAuthority

  function AllowedTransitions(status: Status): set<Status> {
    match status
    case Detected => {Validating, FalsePositive}
    case Validating => {Confirmed, UnderReview, FalsePositive, Duplicate}
    case Confirmed => {SafetyAssessment}
    case SafetyAssessment => {ResponseCoordination}
    case ResponseCoordination => {RoadClearance, TransferredToAuthority}
    case RoadClearance => {Recovery}
    case Recovery => {Closed}
    case UnderReview => {Validating, Confirmed, FalsePositive, Duplicate}
    case TransferredToAuthority => {Closed}
    case _ => {}
  }

  datatype Level = Informational | Low | Moderate | High | Critical
  {
    predicate IsHigh() {
      High? || Critical?
    }
  }

  datatype Assessment = Assessment(level: Level, score: real, reasonCodes: seq<string>, confidence: real, requiresHumanReview: bool)

  predicate ValidAssessment(a: Assessment) {
    && 0.0 <= a.score <= 100.0 && 0.0 <= a.confidence <= 1.0
    && a.reasonCodes != [] && (forall code | code in a.reasonCodes :: 1 <= |code| <= 64)
    && (a.level.IsHigh() ==> a.requiresHumanReview)
  }

  datatype Closure = Closure(actorId: string, reason: string, authorizedAt: int)

  predicate ValidClosure(c: Closure, now: int) {
    1 <= |c.actorId| <= 128 && 1 <= |c.reason| <= 500 && c.authorizedAt <= now + MAX_CLOCK_SKEW_MS
  }

  datatype RoadEvent = RoadEvent(
    id: string, reporter: Option<string>, occurredAt: int, latitude: real, longitude: real,
    status: Status, severity: Assessment, version: nat, closure: Option<Closure>)

  datatype EventError = InvalidEvent | InvalidSeverity | TransitionNotAllowed | NeedsHumanAuthorization | InvalidClosure

  /** What the create command builds: a first version in DETECTED, with no closure authorized. */
  function NewEvent(id: string, reporter: Option<string>, occurredAt: int, latitude: real, longitude: real, severity: Assessment, now: int)
    : Result<RoadEvent, EventError>
  {
    if !(1 <= |id| <= 128) || (reporter.Some? && !(1 <= |reporter.value| <= 128)) then Failure(InvalidEvent)
    else if occurredAt > now + MAX_CLOCK_SKEW_MS then Failure(InvalidEvent)
    else if !(-90.0 <= latitude <= 90.0) || !(-180.0 <= longitude <= 180.0) then Failure(InvalidEvent)
    else if !ValidAssessment(severity) then Failure(InvalidSeverity)
    else Success(RoadEvent(id, reporter, occurredAt, latitude, longitude, Detected, severity, 1, None))
  }

  datatype Mutation = TransitionTo(next: Status) | AssessSeverity(assessment: Assessment) | AuthorizeClosure(closure: Closure)

  function Mutate(event: RoadEvent, mutation: Mutation, now: int): (r: Result<RoadEvent, EventError>)
    ensures r.Success? ==> r.value.version == event.version + 1 && r.value.id == event.id && r.value.reporter == event.reporter
  {
    match mutation
    case TransitionTo(next) =>
      if next !in AllowedTransitions(event.status) then Failure(TransitionNotAllowed)
      else if next == Closed && event.severity.level.IsHigh() && event.closure.None? then Failure(NeedsHumanAuthorization)
      else Success(event.(status := next, version := event.version + 1))
    case AssessSeverity(assessment) =>
      if !ValidAssessment(assessment) then Failure(InvalidSeverity)
      else Success(event.(severity := assessment, closure := None, version := event.version + 1))
    case AuthorizeClosure(closure) =>
      if Closed !in AllowedTransitions(event.status) then Failure(TransitionNotAllowed)
      else if !ValidClosure(closure, now) then Failure(InvalidClosure)
      else Success(event.(closure := Some(closure), version := event.version + 1))
  }
}
