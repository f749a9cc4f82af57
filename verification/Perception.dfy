/** Sensor observation envelopes and the gate that admits them to the current road state. */
module Perception {
  import opened Integers
  import opened Wrappers

  /** A timestamp as written and what Date.parse reads in it: nothing when it is unreadable.  Different
      texts may name the same instant. */
  datatype Timestamp = Timestamp(text: string, instant: Option<int>)
  {
    function Parse(): Option<int> {
      instant
    }
  }

  datatype HealthState = Healthy | Degraded | Quarantined | Unavailable
  datatype CalibrationState = Valid | Stale | UnknownCalibration | Invalid

  datatype Track = Track(
    trackId: string,
    objectClass: string,
    kinematics: string,
    laneId: Option<string>,
    roadSegmentId: Option<string>,
    confidence: Option<real>,
    supportingObservationIds: seq<string>)

  datatype Payload = TrackSet(tracks: seq<Track>) | OtherPayload(content: string)

  /** `wellFormed` stands for the checks that look at one field only: schema, blank ids, sequence
      number, timing and score ranges, digests and provenance. */
  datatype Observation = Observation(
    observationId: string,
    sourceId: string,
    wellFormed: bool,
    capturedAt: Timestamp,
    receivedAt: Timestamp,
    healthAssessedAt: Timestamp,
    clockErrorMs: nat,
    freshnessTtlMs: nat,
    health: HealthState,
    degradationCauses: seq<string>,
    calibration: CalibrationState,
    payload: Payload)

  datatype Disposition = Accept | DegradedUsable | ContextOnly | Quarantine

  predicate HardFailure(o: Observation, now: int) {
    || !o.wellFormed
    || o.capturedAt.Parse().None? || o.receivedAt.Parse().None? || o.healthAssessedAt.Parse().None?
    || o.capturedAt.Parse().value > now + Max(250, o.clockErrorMs + 250)
    || o.health == Quarantined || o.health == Unavailable
    || o.calibration == Invalid
  }

  function Admission(o: Observation, now: int): Disposition {
    if HardFailure(o, now) then Quarantine
    else if o.capturedAt.Parse().value + o.freshnessTtlMs < now then ContextOnly
    else if o.health == Degraded || o.calibration == Stale || o.calibration == UnknownCalibration || o.degradationCauses != [] then DegradedUsable
    else Accept
  }

  predicate Usable(o: Observation, now: int) {
    Admission(o, now) == Accept || Admission(o, now) == DegradedUsable
  }

  /** Well formed, with readable times, not from the future beyond its clock error, and neither quarantined,
      unavailable nor with an invalid calibration. */
  ghost predicate Sound(o: Observation, now: int) {
    && o.wellFormed && o.receivedAt.instant.Some? && o.healthAssessedAt.instant.Some?
    && o.capturedAt.instant.Some? && o.capturedAt.instant.value <= now + 250 + o.clockErrorMs
    && o.health in {Healthy, Degraded} && o.calibration in {Valid, Stale, UnknownCalibration}
  }

  /** Sound and not older than its time to live. */
  ghost predicate MayBeUsed(o: Observation, now: int) {
    Sound(o, now) && now <= o.capturedAt.instant.value + o.freshnessTtlMs
  }

  /** What is unsound is quarantined, what is too old serves as context only, and the rest may be used, without
      reserve exactly when nothing is degraded. */
  lemma AdmissionMeans(o: Observation, now: int)
    ensures Admission(o, now) ==
      if !Sound(o, now) then Quarantine
      else if !MayBeUsed(o, now) then ContextOnly
      else if o.health == Healthy && o.calibration == Valid && o.degradationCauses == [] then Accept
      else DegradedUsable
    ensures Usable(o, now) <==> MayBeUsed(o, now)
  {
  }

  predicate IdsDistinct(observations: seq<Observation>) {
    forall i, j | 0 <= i < j < |observations| :: observations[i].observationId != observations[j].observationId
  }
}
