# Verified model of the road safety platform's protocol cores

This project models, in Dafny, the parts of the road safety platform in which several actors
share state or a decision depends on fine ordering, and proves what they keep:

* the transactional outbox and its workers, and the consumer's idempotency ledger
  (`Outbox*.dfy`, `ConsumerLedger.dfy`);
* the offline queue of the mobile field companion and the gateway it delivers to (`Field*.dfy`);
* the partner delivery lifecycle with its callback log (`Partner*.dfy`);
* idempotent command execution over the in-memory adapter (`Idempoten*.dfy`) and the version-checked
  road event store with its audit timeline (`RoadEvent*.dfy`);
* the perception pipeline: evidence assurance by independence class (`EvidenceAssurance.dfy`,
  `EvidenceMeaning.dfy`, `EvidenceAssessor.dfy`) and the Cognitive Road State (`Cognitive*.dfy`), over
  the observations of `Perception.dfy`;
* canonical JSON (`JsonText.dfy`, `CanonicalJson.dfy`, `CanonicalJsonLaws.dfy`);
* human safety transitions (`Safety*.dfy`), the replay window (`Replay*.dfy`) and the command center's
  queue and actions (`CommandCenter*.dfy`);
* evidence uploads, scans and downloads (`EvidenceVault.dfy`, `EvidenceRuns.dfy`,
  `EvidenceQuarantine.dfy`, `EvidenceOutcomes.dfy`, `EvidenceService.dfy`).

Each area has the same layers. Values and functions say what one statement, step or call does; where
the program changes an object, a class with the same fields does it step by step and is proved equal
to that function; and lemmas about runs of steps, interleaved in any order and, where the program can
be interrupted, broken off anywhere, state what holds afterwards. Methods that await let other
actors take any number of steps in between (`OthersAct`, `Await`, `Yield`); their contracts say which
run of the shared state machine they performed, so the run lemmas apply to them. What an operation
answers and changes is also said from the fields alone, without the functions that compute it: when it
succeeds, what the row, session, event or entity then holds, and what stays as it was
(`FieldSessions.dfy`, `PartnerOutcomes.dfy`, `RoadEventAccess.dfy`, `CognitiveEntities.dfy`,
`EvidenceMeaning.dfy`, `EvidenceOutcomes.dfy`, `SafetyOutcomes.dfy`, and the lemmas named `...Means`).

Time is an integer clock. SHA-256 is an injective function. One SQL statement, or one transaction, is
one atomic step, and a transaction that raises restores the tables. `StableSort.dfy`, `Sequences.dfy`,
`TextOrder.dfy`, `LexOrder.dfy`, `SetBasics.dfy`, `Integers.dfy` and `Wrappers.dfy` are shared helpers.

`dafny verify dfyconfig.toml` checks the whole project.

## What turned out otherwise than expected

* Outbox: the lease intervals as granted can overlap; the leases in force never do. A failure mark
  leaves room for an overlap exactly when it allows a retry that is due before the lease it gives
  back would have run out (`OverlapPossibleExactlyWhen`, `PatientMarksNeverOverlap`). A holder whose
  lease has run out may still mark its row until somebody else claims it (`MarkNeedsLatestLease`).
* Consumer ledger: completing and releasing a message do not check who holds it. A consumer loses a
  message while its lease runs exactly when another one issues either statement in this time
  (`LeaseLostExactlyWhen`), and two come to work on it at once exactly when that is a release
  (`OverlapExactlyWhenReleased`).
* Field companion: operations are told apart by their keys alone, so a key factory that restarts its
  count swallows operations (`RestartSwallowsReplies`). `SwallowedExactlyWhen` says which, for any queue
  whatever, and `SwallowedByKey` more simply when ids repeat only together with their keys; runs assume
  fresh keys.
* Field companion: a takeover is shown when the flush itself hands over the call for help. When the
  answer to it is lost, the next flush gets DUPLICATE and the contact state of the takeover, but the
  takeover is not shown (`TakeoverShownExactlyWhen`, `LostAnswerHidesTakeover`).
* Cognitive Road State: the check for a source that contradicts itself groups reports by the text of
  `capturedAt`. It is complete, and so is the demand to abstain, exactly when no source writes one
  instant in two ways (`DivergenceCheckIsComplete`); leaving out the milliseconds once is enough to
  hide a contradiction (`MillisecondsHideDisagreement`). The two places that list a track's
  contradictory observations can differ (`TwoAccountsOfAContradiction`, `AccountsDiffer`).
* Human safety: a refusal with an invalid context names HUMAN_REVIEW even for an ESCALATED case
  (`RefusalDropsEscalation`); a safety lead who is also a supervisor cannot use an authorization
  given as supervisor (`ResolutionAllowedExactlyWhen`).
* Replay window: an envelope whose sender's clock is ahead of the evaluation can be accepted twice by a
  registry that forgets a nonce at its expiry (`RepeatPossibleExactlyWhen`).
* Evidence: a preserved record can have a copy of its object in quarantine, exactly when a completion
  of it rejected and copied the object without getting to mark the record, because another one did
  first or because the copy could not be verified (`PreservedWithCopyExactlyWhen`, `RaceHappens`). It
  cannot happen when uploads are signed and the scanner judges by content (`SteadyScannerLeavesNoCopy`).
* Command center: a request error is meant to block further actions until the cases are loaded again,
  but refreshing the staleness, which every repaint does, forgets the error. Actions stay blocked
  exactly until a refresh comes while the data are still young enough
  (`RequestErrorBlocksUntilRefresh`, `PossibleAfterRequestError`, `RepaintForgetsRequestError`).
* Command center: a filtered view can show an older case after a younger urgent one of the same
  priority, exactly at the priority they can share (`ViewOrderIsFullExactlyWhen`, `OvertakenView`).

## Model

| member | source | states |
|---|---|---|
| OutboxTable.ClaimTakesOldest | apps/api/src/messaging/postgres-outbox-repository.ts:66-99 | a claim takes only rows that are due, unsettled, not under a running lease, scoped when they are road events, and not skipped, at most the limit; none left behind is older, or as old with a smaller id; and all of them when there are fewer |
| OutboxTable.LeasesNeverOverlap | apps/api/src/messaging/postgres-outbox-repository.ts:66-153 | in every interleaving of statements of any workers, two leases of one row are never in force at the same instant |
| OutboxTable.MarkNeedsLatestLease | apps/api/src/messaging/postgres-outbox-repository.ts:101-153 | a mark changes its row if and only if the row's latest lease was granted to the caller and has not been closed |
| OutboxTable.ReclaimedRowIsOutOfReach | apps/api/src/messaging/postgres-outbox-repository.ts:143-153 | a worker whose row was granted to others since can no longer change it |
| OutboxTable.SettledRowsAreFrozen | apps/api/src/messaging/postgres-outbox-repository.ts:66-153 | a published or dead-lettered row is never changed by any later run |
| OutboxTable.NeverBothTerminal | apps/api/src/messaging/postgres-outbox-repository.ts:101-141 | no run sets both published_at and dead_lettered_at |
| OutboxLeases.OverlapPossibleExactlyWhen | apps/api/src/messaging/postgres-outbox-repository.ts:114-141 | in every reachable state, once the holder has marked its row, some continuation grants the row to any given worker before the holder's lease would have run out if and only if the mark is a failure without dead letter, with next_attempt_at not after locked_until, made while the lease runs |
| OutboxLeases.PatientMarksNeverOverlap | apps/api/src/messaging/postgres-outbox-repository.ts:66-141 | when no failure mark asks for a retry inside its own lease, the intervals as granted never overlap in any interleaving |
| OutboxLeases.EarlyMarkLetsIntervalsOverlap | apps/api/src/messaging/postgres-outbox-repository.ts:114-141 | a continuation that shows the overlap: wait for the retry to be due, then claim |
| OutboxWorkers.WorkersRunStatements | apps/api/src/messaging/outbox-worker.ts:92-154 | whatever workers do to the table is a run of the repository's statements |
| OutboxWorkers.AttemptsStayWithinLimit | apps/api/src/messaging/outbox-worker.ts:92-154 | over all runs of workers sharing maximumAttempts, every row that can still be delivered has failed fewer times, every dead letter exactly that many |
| OutboxWorkers.FinalMarkIsLast | apps/api/src/messaging/outbox-worker.ts:92-154 | over all workers no mark on a row takes effect after one that published or dead-lettered it |
| OutboxWorkers.OthersLeaveWorkerAlone | apps/api/src/messaging/outbox-worker.ts:92-154 | steps of other workers change neither a worker's message nor its log nor a row that it still owns |
| OutboxRepository.PostgresOutboxRepository.ClaimBatch | apps/api/src/messaging/postgres-outbox-repository.ts:66-99 | validates its arguments, then performs the claim statement: it locks exactly the rows it returns for the given time and changes nothing else |
| OutboxRepository.PostgresOutboxRepository.MarkPublished | apps/api/src/messaging/postgres-outbox-repository.ts:101-112 | performs the guarded publish mark and fails if and only if the caller does not own the row |
| OutboxRepository.PostgresOutboxRepository.MarkFailed | apps/api/src/messaging/postgres-outbox-repository.ts:114-141 | performs the guarded failure mark with the truncated error, and fails if and only if the caller does not own the row |
| OutboxWorker.RetryDelayBounds | apps/api/src/messaging/outbox-worker.ts:45-61 | for every draw the next attempt lies after the failure, between half and all of min(base * 2 ** min(failures before, 30), maximum) |
| OutboxWorker.RetryDelayGrows | apps/api/src/messaging/outbox-worker.ts:45-61 | a later attempt never waits less for the same draw |
| OutboxWorker.RetryWaits | apps/api/src/messaging/postgres-outbox-repository.ts:66-141 | whatever all workers do after a retry was scheduled, nobody is granted the row before its next attempt is due, and after a dead letter or a publication nobody ever is |
| OutboxWorker.Worker.RunOnce | apps/api/src/messaging/outbox-worker.ts:92-154 | a normal return has claimed = published + retried + deadLettered within the batch, the log grew by exactly these with at most one failure and that one last; when it throws, all new marks but the last are publications; and whenever the last new mark is a failure, its row says so: a dead letter of the time of the failure after the last permitted attempt, otherwise a retry within the backoff of that time |
| OutboxWorker.Worker.ClaimOne | apps/api/src/messaging/outbox-worker.ts:92-110 | one claim makes the worker hold exactly the message of a due row, leased to it for the configured time; one that fails, also after taking effect, leaves it holding none |
| OutboxWorker.Worker.TryPublish | apps/api/src/messaging/outbox-worker.ts:111-121 | a delivery that succeeds publishes the row, logs one Published entry and lets the message go; one that fails changed nothing, or published the row without the worker knowing |
| OutboxWorker.Worker.RecordFailure | apps/api/src/messaging/outbox-worker.ts:121-150 | the row counts one more failure and is given back: dead-lettered at the time of the failure if and only if that was the last permitted attempt, and with its next attempt within the backoff of that time; on a row published unawares nothing is recorded |
| ConsumerLedger.CompletedIsForever | apps/api/src/messaging/postgres-outbox-repository.ts:159-193 | a completed message stays completed in every run and can never be begun again |
| ConsumerLedger.LeaseLostExactlyWhen | apps/api/src/messaging/postgres-outbox-repository.ts:159-193 | over every run in which a consumer keeps at its message, it loses the message while its lease runs if and only if another consumer issues a release or completion of it in this time |
| ConsumerLedger.OverlapExactlyWhenReleased | apps/api/src/messaging/postgres-outbox-repository.ts:159-193 | a second consumer can begin the message while the first one's lease runs if and only if another consumer releases it in this time |
| ConsumerLedger.LateReleaseFreesMessage | apps/api/src/messaging/postgres-outbox-repository.ts:189-193 | a consumer whose lease has lapsed does release a message under its next holder |
| ConsumerLedger.PostgresConsumerIdempotencyStore.TryBegin | apps/api/src/messaging/postgres-outbox-repository.ts:159-180 | begins if and only if the message is new or its lease has lapsed uncompleted |
| FieldQueue.FlushIsSinglePass | apps/mobile/src/field-companion.ts:308-329 | the loop with its second pass and the removal of duplicates computes a single reading of the queue: what is kept, acknowledged and delivered |
| FieldQueue.FlushKeepsOrder | apps/mobile/src/field-companion.ts:308-329 | the new pending list is a subsequence of the old one in the same order, up to attemptCount |
| FieldQueue.FlushPartition | apps/mobile/src/field-companion.ts:308-329 | at one clock reading each old operation is exactly one of kept, acknowledged, expired |
| FieldQueue.FlushLosesNothing | apps/mobile/src/field-companion.ts:308-329 | with the clock running, an operation that leaves the queue was acknowledged or has expired |
| FieldQueue.DegradedDeliversPrefix | apps/mobile/src/field-companion.ts:311-329 | on a DEGRADED network the delivered operations are a prefix of the live queue |
| FieldQueue.WindowHoldsDelivered | apps/mobile/src/field-companion.ts:308-329 | the window of acknowledged keys holds every key the flush delivered |
| FieldQueue.DeliverOnce | apps/mobile/src/field-companion.ts:431-446 | a delivery echoes the key, is remembered, and only appends to the gateway's deliveries |
| FieldPositions.FlushByPosition | apps/mobile/src/field-companion.ts:308-329 | for any queue, the new queue holds the operations at the kept positions, those that failed with one more attempt, and the gateway was handed those at the handed positions, each in this order |
| FieldFates.FateOfReached | apps/mobile/src/field-companion.ts:308-329 | for any queue, an operation that the loop reaches is handed over if and only if it is unexpired, its key is neither acknowledged nor known to the gateway nor answered before, and the gateway answers; it stays if and only if it is the first unexpired one of a key that is not acknowledged and the gateway does not answer |
| FieldFates.FateOfUnreached | apps/mobile/src/field-companion.ts:311-329 | for any queue, an operation behind the stop is not handed over; it stays if and only if the second pass takes it and neither the operation that failed nor one taken before has its key |
| FieldFates.SwallowedExactlyWhen | apps/mobile/src/field-companion.ts:308-329 | at one clock reading, for any queue, an unexpired operation leaves without being handed over if and only if its key is acknowledged, or it is reached and answered with a key known or answered before, or reached and not answered behind another of its key, or not reached and not waiting |
| FieldFates.SwallowedByKey | apps/mobile/src/field-companion.ts:308-329 | when ids repeat only together with their keys: the first unexpired operation of a key that is not acknowledged is swallowed if and only if it is reached and answered by a gateway that knows the key; a later one if and only if it is not handed over itself |
| FieldFates.RestartSwallowsReplies | apps/mobile/src/field-companion.ts:420-423 | after a restart of the sequential key factory with one reply waiting, the first two of three new replies are always swallowed, and the third unless the network is ONLINE and the gateway answers it but not the waiting one |
| FieldFates.ReachesMeansNotStopped | apps/mobile/src/field-companion.ts:311-323 | for any queue, the loop reaches a position if and only if the network is not DEGRADED or every earlier live operation was answered, itself or one of its key before it |
| FieldRuns.DeliveredAtMostOnce | apps/mobile/src/field-companion.ts:136-446 | over all runs of enqueues, flushes, crashes anywhere, deliveries whose answer is lost and reboots, each key enters the gateway's deliveries at most once |
| FieldRuns.SavedOperationsAreNotLost | apps/mobile/src/field-companion.ts:151-401 | over all such runs an operation ever persisted has expired, has been delivered or is still pending in storage |
| FieldRuns.ResetDiscardsOnlyExpired | apps/mobile/src/field-companion.ts:151-162 | the reset at boot happens only for age and discards only expired operations |
| FieldRuns.FlushedOperation | apps/mobile/src/field-companion.ts:308-329 | each operation a flush leaves comes from the old queue and is not acknowledged |
| FieldSessions.FlushShowsLastAnswer | apps/mobile/src/field-companion.ts:367-382 | after a flush the contact state and the phase are those that the last answered operation calls for: operator takeover for a reply that asks for help or cannot be spoken, human review for an unsure reply or a refused consent, otherwise the network's phase; a key that the gateway knew brings back its first contact state; without an answer the session is as it was |
| FieldSessions.TakeoverShownExactlyWhen | apps/mobile/src/field-companion.ts:367-382 | after a flush a takeover is visible if and only if it was before or the flush itself handed the gateway a reply that calls for an operator |
| FieldSessions.TakeoverStaysVisible | apps/mobile/src/field-companion.ts:136-306 | in every run a takeover that is shown stays shown while the process runs, and one that was saved also across crashes, as long as no boot comes more than 24 hours after the last save |
| FieldSessions.LostAnswerHidesTakeover | apps/mobile/src/field-companion.ts:431-446 | when the answer to a call for an operator is lost, the next flush brings its contact state but the takeover is not shown |
| FieldCompanion.SimulatedFieldCompanionGateway.Deliver | apps/mobile/src/field-companion.ts:431-446 | delivers a new key once, answers DUPLICATE for a known one, changes nothing when unavailable |
| FieldCompanion.FieldSafetyCompanionController.DeliverPending | apps/mobile/src/field-companion.ts:311-322 | the loop over pending produces exactly the remaining and acknowledged lists, session and gateway of the specification |
| FieldCompanion.FieldSafetyCompanionController.Flush | apps/mobile/src/field-companion.ts:308-329 | a flush does nothing offline and otherwise what the specification of a flush says, and persists it |
| FieldCompanion.FieldSafetyCompanionController.Boot | apps/mobile/src/field-companion.ts:151-162 | boot restores what storage holds when it is valid for the session and young enough, else starts afresh |
| FieldCompanion.FieldSafetyCompanionController.Enqueue | apps/mobile/src/field-companion.ts:362-365 | appends to pending, or fails when the queue is full |
| FieldCompanion.FieldSafetyCompanionController.SetConsent | apps/mobile/src/field-companion.ts:164-185 | records the consent with its operation and persists it |
| PartnerRuns.TransportColumnsAgree | apps/api/src/integrations/integration-lifecycle.ts:476-567 | in every reachable row provider id, accepted_at and attempt_count 1 are set together, exactly when the state is not PREPARED |
| PartnerRuns.RowsMoveForward | apps/api/src/integrations/integration-lifecycle.ts:476-650 | from any point of a run to any later one a state is never left for an earlier one, updated_at never falls, a completed, failed or cancelled row never changes again and an acceptance is never rewritten |
| PartnerRuns.SendIsIdempotent | apps/api/src/integrations/integration-lifecycle.ts:476-509 | after an accepted send every later send returns the first receipt and changes nothing |
| PartnerRuns.PrepareIsIdempotent | apps/api/src/integrations/integration-lifecycle.ts:391-474 | preparing the same request again returns the first reply whatever happened since; under its operation id no other profile and no different request ever succeeds |
| PartnerRuns.GuardsNeverFire | database/migrations/0014_integration_delivery_lifecycle.sql:1-106 | every delivery row there is after a command, inserted ones included, passes the CHECK constraints and the UNIQUE keys, and the update trigger accepts every change |
| PartnerRuns.CallbackGuardsNeverFire | database/migrations/0014_integration_delivery_lifecycle.sql:108-143 | every callback row passes its length checks, refers to a delivery of its profile, and is never changed or deleted |
| PartnerRuns.LoggedCallbackIsInert | apps/api/src/integrations/integration-lifecycle.ts:569-650 | a logged callback id keeps its meaning forever and delivering it again changes nothing |
| PartnerRuns.FreshCallback | apps/api/src/integrations/integration-lifecycle.ts:569-650 | a new callback is logged if and only if it succeeds, and it succeeds only by moving its delivery to the reported state or finding it there |
| PartnerRuns.LogHoldsAcceptedCallbacks | apps/api/src/integrations/integration-lifecycle.ts:569-650 | over every run the log holds exactly the callbacks that succeeded at some point |
| PartnerOutcomes.CancelExactlyWhen | apps/api/src/integrations/integration-lifecycle.ts:531-567 | in every reachable state a valid cancellation succeeds if and only if one row of the profile carries the provider request id, and is cancelled for this reason already, or accepted or acknowledged and not updated later; then the row is cancelled for exactly this reason, from this time unless it was before, and no other row and no callback changes |
| PartnerOutcomes.CancelIsIdempotent | apps/api/src/integrations/integration-lifecycle.ts:531-567 | after a cancellation, whatever happens next, the same one gets the same answer at any time, one with another reason fails, and neither changes anything |
| PartnerOutcomes.SendExactlyWhen | apps/api/src/integrations/integration-lifecycle.ts:476-509 | in every reachable state a valid send succeeds if and only if the delivery belongs to the profile and was sent before or not prepared later; then it is accepted at the time of its first send, as the receipt says, and nothing else has changed |
| PartnerOutcomes.PrepareExactlyWhen | apps/api/src/integrations/integration-lifecycle.ts:391-474 | in every reachable state a valid request is prepared if and only if its operation id and idempotency key are new or the operation id was prepared for the same profile and request; it adds one row with the contents of the request, or none |
| PartnerOutcomes.CallbackExactlyWhen | apps/api/src/integrations/integration-lifecycle.ts:569-650 | in every reachable state a valid callback succeeds if and only if its id is logged with the same meaning, or it is new and its row is in the reported state already or can still move and was not updated later; it changes its row to the state, reason and time it reports and nothing else |
| PartnerOutcomes.OthersAreOutOfReach | apps/api/src/integrations/integration-lifecycle.ts:652-690 | a command of another profile, partner, purpose or tenant never changes a delivery, nor does a successful answer to it tell anything of it |
| PartnerOutcomes.ValidProfileMeans | apps/api/src/integrations/integration-lifecycle.ts:168-191 | which profiles are accepted: for simulation only, for the one purpose of their partner, with a name of the permitted characters |
| PartnerSandbox.PostgresIntegrationSandbox.Prepare | apps/api/src/integrations/integration-lifecycle.ts:391-474 | one transaction that leaves tables and reply as specified, restoring the tables on error |
| PartnerSandbox.PostgresIntegrationSandbox.Send | apps/api/src/integrations/integration-lifecycle.ts:476-509 | one transaction that leaves tables and reply as specified, restoring the tables on error |
| PartnerSandbox.PostgresIntegrationSandbox.Cancel | apps/api/src/integrations/integration-lifecycle.ts:531-567 | one transaction that leaves tables and reply as specified, restoring the tables on error |
| PartnerSandbox.PostgresIntegrationSandbox.HandleCallback | apps/api/src/integrations/integration-lifecycle.ts:569-650 | inserts the callback first, and rolls the insert back when the callback is rejected |
| PartnerSandbox.PostgresIntegrationSandbox.End | apps/api/src/integrations/integration-lifecycle.ts:688-701 | commits the work or puts back what the transaction began with |
| IdempotentExecution.ExecutedAtMostOnce | apps/api/src/application/road-event-application.ts:331-358 | in every interleaving at most one operation succeeds for a scope and key |
| IdempotentExecution.AnswersComeFromTheExecution | apps/api/src/application/road-event-application.ts:331-358 | a returned value is that of the one execution with the same fingerprint; a refusal as reused means an execution with another fingerprint |
| IdempotentExecution.SameAnswer | apps/api/src/application/road-event-application.ts:331-358 | two requests that return a value for one key sent the same fingerprint and get the same value |
| IdempotentExecution.FailureLeavesNoRecord | apps/api/src/application/road-event-application.ts:340-351 | while no operation for a key has succeeded there is no record, and the next request runs the operation |
| IdempotentExecution.LockedExactlyWhileActive | apps/api/src/application/local-adapters.ts:60-71 | a key is locked exactly while one request works on it |
| IdempotentExecution.CompositeIsInjective | apps/api/src/application/local-adapters.ts:60-80 | scope and key can be read off the composite key, scopes being of one length |
| IdempotentRefinement.InterleavingsAreAtomic | apps/api/src/application/road-event-application.ts:331-358 | every interleaving gives each finished request that was not turned away the answer of a service that serves the same requests one at a time |
| IdempotencyAdapter.MemoryIdempotencyAdapter.ExecuteIdempotently | apps/api/src/application/road-event-application.ts:331-358 | the method, with others acting at every await, is one request of the interleaved system and returns its result |
| IdempotencyAdapter.MemoryIdempotencyAdapter.Enter | apps/api/src/application/local-adapters.ts:60-66 | enters if and only if no equal request is in flight |
| IdempotencyAdapter.MemoryIdempotencyAdapter.Put | apps/api/src/application/local-adapters.ts:76-79 | stores a record and never overwrites one |
| RoadEventRuns.TimelineIsAChain | apps/api/src/application/local-adapters.ts:129-158 | in every run each timeline starts with the creation, each entry starts where the last ended, the last describes the stored event, and the version counts the writes |
| RoadEventRuns.SavesAreAtomic | apps/api/src/application/road-event-application.ts:180-254 | a save succeeds if and only if the stored event is still the loaded one, and then stores the mutation of that event; otherwise it fails as stale and changes nothing |
| RoadEventRuns.SameVersionIsSavedOnce | apps/api/src/application/local-adapters.ts:147-158 | of two commands that loaded the same version at most one can ever be saved |
| RoadEventRuns.HighSeverityClosureWasAuthorized | packages/domain/src/road-event/road-event.ts:137-168 | an S3 or S4 event is only closed after a closure authorization with no reassessment in between |
| RoadEventRuns.ClosedStaysClosed | packages/domain/src/road-event/road-event-status.ts:1-29 | an event that is closed, a false positive or a duplicate never changes its status again |
| RoadEventRuns.ListingIsExact | apps/api/src/application/local-adapters.ts:166-184 | a listing holds exactly the stored events that the scope finds and that pass every filter of the query, each once, newest first |
| RoadEventRuns.PagesTile | apps/api/src/application/local-adapters.ts:166-184 | consecutive pages laid end to end are the listing, and every page reports its full length |
| RoadEventAccess.AccessIsByCreation | apps/api/src/application/local-adapters.ts:43-46 | whatever has happened since, an event is found by its id, listed given the filters, and its timeline shown, if and only if the caller has the tenant and purpose of the command that created it and names no reporter or that command's |
| RoadEventAccess.LoadingIsByCreation | apps/api/src/application/local-adapters.ts:160-164 | a command loads an event if and only if its caller may reach it in this sense, names its current version, and the event allows the change |
| RoadEventAccess.ChangesComeFromOwners | apps/api/src/application/local-adapters.ts:147-158 | in every run, whenever an event changes, this is the save of a command loaded before by a caller who may reach it in this sense; the event becomes what that command makes of it, and the timeline names that caller's actor |
| RoadEventAccess.EveryEventWasCreated | apps/api/src/application/local-adapters.ts:129-145 | every event of a reachable store was created by one step of the run |
| RoadEventAccess.OpensExactlyWhen | apps/api/src/application/local-adapters.ts:129-145 | an event is created if and only if its id is new, its values are acceptable and a reporter, if one is named, is the actor himself; it begins as detected, in version 1, with one timeline entry |
| RoadEventAccess.ChangeExactlyWhen | packages/domain/src/road-event/road-event.ts:137-168 | when each change of an event is allowed, and the only fields it then changes |
| RoadEventRepository.MemoryRoadEventRepository.Create | apps/api/src/application/local-adapters.ts:129-145 | creates the event, its scope and its first audit entry, or fails without effect |
| RoadEventRepository.MemoryRoadEventRepository.Update | apps/api/src/application/local-adapters.ts:147-158 | replaces the event and appends an audit entry if it is visible and has the expected version, else fails without effect |
| RoadEventRepository.MemoryRoadEventRepository.List | apps/api/src/application/local-adapters.ts:166-184 | the chain of filters, the sort and the slice give the requested part of the specified listing and its length |
| RoadEventRepository.MemoryRoadEventRepository.ListForRoadEvent | apps/api/src/application/local-adapters.ts:186-190 | returns the timeline of an event in scope, and nothing otherwise |
| RoadEventService.RoadEventApplicationService.Change | apps/api/src/application/road-event-application.ts:180-254 | a command, with others acting between its load and its save, is a run of the shared steps; on success exactly the returned event is stored, on failure none of its own steps changed the store |
| RoadEventCommands.KeyChangesOnce | apps/api/src/application/road-event-application.ts:180-358 | however often a command is sent with one key, in whatever interleaving, it changes at most one event, once |
| RoadEventCommands.RetriesReturnTheChange | apps/api/src/application/road-event-application.ts:331-358 | a request that returns an event returns what the one change for its key made |
| RoadEventCommands.SameKeySameEvent | apps/api/src/application/road-event-application.ts:331-358 | two requests that return an event for one key return the same one |
| RoadEventCommands.ChangesAreTheMutations | apps/api/src/application/road-event-application.ts:180-254 | a step changes a stored event if and only if it is logged as a change of that event, one version later |
| EvidenceAssurance.SybilBound | apps/api/src/perception/evidence-assurance.ts:68-140 | however many claims are added, the effective independent evidence moves by at most the number of classes under which they qualify |
| EvidenceAssurance.FewClassesCannotCorroborate | apps/api/src/perception/evidence-assurance.ts:108-140 | claims of k classes cannot corroborate what lacks more than k supporting classes |
| EvidenceAssurance.SupportingAndContradictingAreDisjoint | apps/api/src/perception/evidence-assurance.ts:108-127 | no class both supports and contradicts, so the effective evidence is the sum |
| EvidenceAssurance.OrderDoesNotMatter | apps/api/src/perception/evidence-assurance.ts:29-140 | decision, classes and reasons depend on which claims and leases there are, not on their order or repetition, nor on the order of observations with distinct ids |
| EvidenceAssurance.CorroborationIsEarned | apps/api/src/perception/evidence-assurance.ts:108-140 | CORROBORATED takes the minimum number of classes, each with a qualified PRESENT claim on a usable observation, as many different observations, and no class supporting ABSENT |
| EvidenceAssurance.OneContradictionDenies | apps/api/src/perception/evidence-assurance.ts:108-140 | one class that supports ABSENT denies corroboration |
| EvidenceMeaning.QualifiesMeans | apps/api/src/perception/evidence-assurance.ts:60-93 | a claim counts under a class if and only if it is on topic, with a confidence, rests on the first observation of its id, which may be used, and leases in force for this context bind this observation to that class only |
| EvidenceMeaning.DecisionMeans | apps/api/src/perception/evidence-assurance.ts:95-139 | the supporting classes are those under which only presence is said, the contradicting ones those under which only absence is; CORROBORATED takes as many supporters as asked for and no contradiction |
| EvidenceMeaning.ReasonsMean | apps/api/src/perception/evidence-assurance.ts:33-139 | when each reason code is given |
| Perception.AdmissionMeans | packages/contracts/src/sensor-perception.ts:274-385 | unsound observations are quarantined, those past their time to live serve as context only, and the rest may be used, without reserve if and only if nothing is degraded |
| EvidenceAssessor.AssessEvidenceClaims | apps/api/src/perception/evidence-assurance.ts:29-153 | the successive loops compute exactly the specified decision, counts, sorted classes and reason codes, and fail exactly for an invalid minimum |
| EvidenceAssessor.IndexObservations | apps/api/src/perception/evidence-assurance.ts:34-42 | finds the first observation of each id and reports duplicates if and only if there are any |
| EvidenceAssessor.IndexLeases | apps/api/src/perception/evidence-assurance.ts:44-66 | binds each observation to exactly the classes of the valid leases in context |
| EvidenceAssessor.QualifyClaims | apps/api/src/perception/evidence-assurance.ts:68-106 | keeps exactly the qualifying claims, each with its class, and gives exactly the reasons of the others |
| EvidenceAssessor.GroupValues | apps/api/src/perception/evidence-assurance.ts:108-113 | groups exactly the values said under each class |
| EvidenceAssessor.Weigh | apps/api/src/perception/evidence-assurance.ts:115-126 | sorts the classes into supporting, contradicting and self-contradicting |
| CognitiveOrder.OrderDoesNotMatter | apps/api/src/perception/cognitive-road-state-builder.ts:36-126 | permuting observations and assurance results changes nothing of what is built, and makes no build fail or succeed |
| CognitiveEntities.EntityIsNewestReport | apps/api/src/perception/cognitive-road-state-builder.ts:229-235 | lane, segment, kinematics and class of every entity are those of one admitted report of its track, and its confidence that report's, at most one half in a contradiction; no admitted report of the track was captured later, nor at the same instant by a source with a smaller name, nor by the same source under a smaller id |
| CognitiveEntities.EntityRestsOnReports | apps/api/src/perception/cognitive-road-state-builder.ts:74-107 | an entity names as supporting exactly the observations that report its track and those named by these reports, and is valid until the first of the reports goes stale or the road state ends |
| CognitiveEntities.BuildsExactlyWhen | apps/api/src/perception/cognitive-road-state-builder.ts:171-207 | a state is built if and only if its window is open, no two observations share an id and no two assurance results an object, no result claims authority, and every report that may be used is readable |
| CognitiveEntities.EveryObservationIsNamed | apps/api/src/perception/cognitive-road-state-builder.ts:39-50 | the evidence names exactly the observations that may be used, the excluded ones are exactly the others |
| CognitiveMeaning.AbstentionMeansContradiction | apps/api/src/perception/cognitive-road-state-builder.ts:209-227 | abstention is required if and only if some admitted track has a source disagreeing with itself at one capture time or a CONTRADICTED assurance |
| CognitiveMeaning.SummaryPartitionsTracks | apps/api/src/perception/cognitive-road-state-builder.ts:121-125 | known, uncertain and unknown partition the tracks, by disagreement and assurance |
| CognitiveDivergence.TwoAccountsOfAContradiction | apps/api/src/perception/cognitive-road-state-builder.ts:77-103 | in every built state the entity and the recorded contradiction of one track list the same observations unless both kinds of contradiction hold and some report of the track agrees with its source |
| CognitiveDivergence.AccountsDiffer | apps/api/src/perception/cognitive-road-state-builder.ts:77-103 | an accepted input of three observations where the two lists differ |
| CognitiveDivergence.RecordedExactlyWhenInContradiction | apps/api/src/perception/cognitive-road-state-builder.ts:77-84 | a contradiction is recorded for an entity if and only if the entity is in contradiction |
| CognitiveMeaning.EntityBounds | apps/api/src/perception/cognitive-road-state-builder.ts:255-261 | an entity's validity never outlives an observation behind it nor the road state, and a contradicted one has confidence of at most one half |
| CognitiveDivergence.DivergenceCheckIsComplete | apps/api/src/perception/cognitive-road-state-builder.ts:209-227 | with the observations' headers fixed, every state that can be built from them names exactly the observations that disagree with their source at one instant, and demands abstention for them, if and only if no source wrote one instant in two ways |
| CognitiveDivergence.MillisecondsHideDisagreement | apps/api/src/perception/cognitive-road-state-builder.ts:212 | accepted inputs in which a contradiction goes unnoticed: one instant written without and with its milliseconds, or with its zone as Z and as an offset |
| CognitiveBuilder.BuildCognitiveRoadState | apps/api/src/perception/cognitive-road-state-builder.ts:36-169 | the imperative builder returns exactly the specified state or the first error |
| CognitiveBuilder.SameSourceSameCaptureContradictions | apps/api/src/perception/cognitive-road-state-builder.ts:209-227 | the nested maps yield exactly the ids of candidates that diverge from another of the same source and capture text |
| CognitiveBuilder.CollectTrackCandidates | apps/api/src/perception/cognitive-road-state-builder.ts:192-207 | groups every track report under its id in order, or returns the first fault |
| CognitiveBuilder.UniqueAssuranceResults | apps/api/src/perception/cognitive-road-state-builder.ts:182-190 | indexes the results by object, or returns the first authority or duplicate fault |
| CognitiveBuilder.AdmitObservations | apps/api/src/perception/cognitive-road-state-builder.ts:39-50 | splits the observations into usable and excluded ones, failing if and only if an id repeats |
| JsonText.QuoteRoundTrip | apps/api/src/integrations/partner-sandbox-evidence.ts:384-387 | a JSON string reader gives back every string that was quoted, as section 7 of RFC 8259 has it |
| JsonText.IntRoundTrip | apps/api/src/integrations/partner-sandbox-evidence.ts:384-387 | reading a printed integer gives it back |
| JsonText.EscapeForm | apps/api/src/integrations/partner-sandbox-evidence.ts:384-387 | how each code unit is written: two units for the quotation mark, the backslash and five control characters, six in lower-case hexadecimal for the other control characters and lone surrogates, itself otherwise |
| JsonText.NoLeadingZero | apps/api/src/integrations/partner-sandbox-evidence.ts:384-387 | no number but zero starts with a zero |
| CanonicalJsonLaws.ParserUndoesPrinter | apps/api/src/integrations/partner-sandbox-evidence.ts:382-392 | a parser reads canonical text, leaving what follows, as the same JSON with the keys of every object in ascending order |
| CanonicalJsonLaws.CanonicalTextIdentifies | apps/api/src/integrations/partner-sandbox-evidence.ts:382-396 | two values have the same canonical text if and only if they are the same JSON up to key order |
| CanonicalJsonLaws.SameJsonSameOutcome | apps/api/src/integrations/partner-sandbox-evidence.ts:382-392 | reordering keys changes neither the text nor whether the value can be canonicalized |
| CanonicalJsonLaws.CanonicalTextIsWellFormed | apps/api/src/integrations/partner-sandbox-evidence.ts:394-396 | canonical text has no lone surrogate, so encoding it as UTF-8 loses nothing |
| SafetyTransition.AuthorityTableIsComplete | packages/contracts/src/human-safety.ts:179-185 | a transition has an authority if and only if the state table allows it |
| SafetyTransition.AuthorizedMeans | packages/contracts/src/human-safety.ts:297 | an actor is authorized if and only if one of his roles carries the authority |
| SafetyTransition.HighRiskRole | packages/contracts/src/human-safety.ts:14-23 | high-risk authority is exercised as safety lead if the actor is one, else as supervisor |
| SafetyOutcomes.AllowedExactlyWhen | packages/contracts/src/human-safety.ts:192-226 | a request is allowed if and only if its context is complete, the transition exists and the actor has a role that carries its authority, and the situation permits it: a cause to reopen a resolved case; a connection unless people are called in; healthy dependencies, and trusted evidence or the actor's own current authorization, to end a review or to resolve |
| SafetyOutcomes.AllowedLeads | packages/contracts/src/human-safety.ts:192-226 | an allowed request leads where it asked to, and one that reopens a resolved case says who is to be called |
| SafetyOutcomes.RefusalLeads | packages/contracts/src/human-safety.ts:192-226 | where each refusal leads: nowhere when the actor is not entitled or a resolved case lacks a cause, to ESCALATED without a connection, with failing dependencies at a resolution, or from there, and to HUMAN_REVIEW otherwise |
| SafetyOutcomes.DecisionNamesAuthority | packages/contracts/src/human-safety.ts:192-226 | which authority a decision names, and that its role is the most senior one of the actor that carries it |
| SafetyOutcomes.TablesAgree | packages/contracts/src/human-safety.ts:14-185 | the state table and the authority table say the same, read by the state that is entered |
| SafetyOutcomes.ActsAsSenior | packages/contracts/src/human-safety.ts:297 | an actor acts under his most senior role that carries the authority |
| SafetyRuns.ReviewIsClearedBeforeResolution | packages/contracts/src/human-safety.ts:192-226 | between a point under review and a resolution there is a step into MONITORED with healthy dependencies, a connection, and trusted evidence or a current uncertainty authorization |
| SafetyRuns.AuthorizationResolvesOnce | packages/contracts/src/human-safety.ts:213-223 | in any run one high-risk authorization resolves the case at most once |
| SafetyRuns.ResolutionAllowedExactlyWhen | packages/contracts/src/human-safety.ts:192-226 | resolution is allowed if and only if the listed conditions hold |
| SafetyRuns.AllowedMeans | packages/contracts/src/human-safety.ts:192-226 | an allowed decision follows the table under a role of the actor that carries the authority, and needs a connection unless it calls people in |
| SafetyRuns.RefusalNeverRelaxes | packages/contracts/src/human-safety.ts:192-226 | a refusal names the current state, HUMAN_REVIEW or ESCALATED |
| SafetyRuns.RefusalDropsEscalation | packages/contracts/src/human-safety.ts:193 | a refusal takes an escalated case to HUMAN_REVIEW if and only if the context is invalid |
| SafetyRuns.MachinesDoNotRelax | packages/contracts/src/human-safety.ts:14-21 | without a human role no case is monitored, transferred or resolved |
| SafetyRuns.HighRiskResolutionIsPersonal | packages/contracts/src/human-safety.ts:213-223 | a high-risk resolution is by the supervisor or safety lead who authorized it for the case's present revisions |
| ReplayWindow.AcceptanceBounds | packages/contracts/src/human-safety.ts:252-288 | an envelope is accepted if and only if it is well formed, evaluated within the skew, the replay window and the maximum age, and the registry serves and does not hold its nonce; only then the registry holds it, until fifteen minutes after the receipt or the evaluation, whichever is earlier |
| ReplayWindow.ValidationMeans | packages/contracts/src/human-safety.ts:230-250 | which envelopes validation stops, and which of them it hands to people instead of quarantining them |
| ReplayWindow.RefusalMeans | packages/contracts/src/human-safety.ts:252-288 | a refusal calls for people if and only if validation does, the event is too old, or the registry could not be asked, and says how far the replay check got |
| ReplayRuns.NonceHeldUntilExpiry | packages/contracts/src/human-safety.ts:264-284 | two acceptances of one token lie at least until the first one's expiry apart |
| ReplayRuns.AcceptedAtMostOnce | packages/contracts/src/human-safety.ts:252-288 | an envelope received no later than its first acceptance is accepted only once |
| ReplayRuns.RepeatPossibleExactlyWhen | packages/contracts/src/human-safety.ts:264-267 | an accepted envelope can be accepted again if and only if its receivedAt was ahead of the evaluation and it is still young enough one window later |
| ReplayRegistry.ReplayNonceRegistry.AcceptEnvelope | packages/contracts/src/human-safety.ts:252-288 | the method leaves registry and decision as specified, consuming the nonce in one atomic step |
| EvidenceRuns.RecordsSettleOnce | apps/api/src/evidence/postgres-evidence-repository.ts:134-148 | a record leaves PENDING_UPLOAD at most once and never changes its metadata |
| EvidenceRuns.PreservedIsVerified | apps/api/src/evidence/evidence-service.ts:182-207 | every preserved record was verified against the declared metadata and scanned clean by one completion begun in time |
| EvidenceRuns.QuarantinedWasRejected | apps/api/src/evidence/evidence-service.ts:196-203 | every quarantined record was rejected by a scan and has its object copied |
| EvidenceRuns.DownloadsArePreserved | apps/api/src/evidence/evidence-service.ts:209-233 | a download request is only ever returned for a record that is preserved |
| EvidenceRuns.OneCompletionWins | apps/api/src/evidence/postgres-evidence-repository.ts:134-148 | once a completion has marked its record every other completion of it fails |
| EvidenceQuarantine.PreservedWithCopyExactlyWhen | apps/api/src/evidence/evidence-service.ts:196-206 | in every run a preserved record has a quarantine copy if and only if some completion of it rejected the object, copied it and then lost to another mark, is about to, or could not verify its copy |
| EvidenceQuarantine.CopyMeansOverlap | apps/api/src/evidence/evidence-service.ts:182-206 | such a completion whose copy was verified read the record while it was pending, was not the one that found it clean, and fails as changed concurrently |
| EvidenceQuarantine.RaceHappens | apps/api/src/evidence/evidence-service.ts:182-206 | a run from the empty vault that ends with a preserved record and a copy of its object in quarantine |
| EvidenceQuarantine.SteadyScannerLeavesNoCopy | apps/api/src/evidence/evidence-service.ts:196-206 | with uploads through signed requests and a scanner whose outcome depends on the object only, no preserved record has a quarantine copy |
| EvidenceRuns.WhatWasScannedIsStored | apps/api/src/evidence/minio-storage-adapter.ts:89-108 | with uploads only through signed requests, the object stored for a preserved record is the one scanned clean |
| EvidenceOutcomes.CreatesExactlyWhen | apps/api/src/evidence/evidence-service.ts:132-160 | an intent becomes a pending record if and only if its caller is authorized, it stays within the limits and its id is new |
| EvidenceOutcomes.UndisturbedCompletion | apps/api/src/evidence/evidence-service.ts:182-207 | in every reachable state, what a completion that nobody disturbs comes to: the record is preserved when the object is as declared and clean, quarantined when it is rejected and its copy verified, and left pending otherwise; nothing else is touched but the copy of a rejected object |
| EvidenceOutcomes.ReturnsExactlyWhen | apps/api/src/evidence/evidence-service.ts:209-233 | in every reachable state a download request is returned if and only if its caller is authorized, the record is preserved and the audit entry stored, which says what was handed out |
| EvidenceOutcomes.AuditDescribesEveryRecord | apps/api/src/evidence/postgres-evidence-repository.ts:134-148 | in every run the last audit entry on a record describes it as it is |
| EvidenceService.Evidence.CreateUploadIntent | apps/api/src/evidence/evidence-service.ts:132-160 | creates a pending record within the size, type and retention limits, or fails without effect |
| EvidenceService.Evidence.CompleteUpload | apps/api/src/evidence/evidence-service.ts:182-207 | the method, with others acting at every await, is one completion of the interleaved system and returns its result |
| EvidenceService.Evidence.Transition | apps/api/src/evidence/postgres-evidence-repository.ts:134-148 | changes the row and appends its audit entry if and only if the row is pending |
| EvidenceService.Evidence.CreateDownloadRequest | apps/api/src/evidence/evidence-service.ts:209-233 | grants a request if and only if the record is preserved, the caller authorized and the audit stored |
| CommandCenter.UrgentOutranks | apps/operations-dashboard/src/human-safety-command-center.ts:212-223 | urgent cases score at least 3000, others at most 3000, with the cases that can tie |
| CommandCenter.PriorityMeans | apps/operations-dashboard/src/human-safety-command-center.ts:192-223 | what makes a case overdue, imminent and urgent, and the priority as the sum of what is pressing about it |
| CommandCenter.ViewIsComplete | apps/operations-dashboard/src/human-safety-command-center.ts:84-97 | a view shows exactly the cases that are due within a minute, of severity S4 or of a person who does not answer, and those that its filter asks for |
| CommandCenter.ViewHasNoDuplicates | apps/operations-dashboard/src/human-safety-command-center.ts:84-97 | no case is shown twice |
| CommandCenter.ViewIsByPriority | apps/operations-dashboard/src/human-safety-command-center.ts:84-97 | priorities never rise down any view |
| CommandCenter.TiesGoToTheOlder | apps/operations-dashboard/src/human-safety-command-center.ts:84-97 | of two shown cases of one priority that are both urgent or both not, the one opened earlier comes first |
| CommandCenter.ViewOrderIsFullExactlyWhen | apps/operations-dashboard/src/human-safety-command-center.ts:84-97 | a filtered view is in full order, priority then age, if and only if no shown case that is not urgent ties with a younger urgent one |
| CommandCenter.OvertakenView | apps/operations-dashboard/src/human-safety-command-center.ts:84-97 | two cases whose view under the filter Unassigned is not in full order |
| CommandCenterController.UniqueCases | apps/operations-dashboard/src/human-safety-command-center.ts:233 | keeps exactly the first occurrence of each case |
| CommandCenterController.HumanSafetyCommandCenterController.VisibleItems | apps/operations-dashboard/src/human-safety-command-center.ts:84-97 | returns the specified view of the loaded cases |
| CommandCenterSession.RequestErrorBlocksUntilRefresh | apps/operations-dashboard/src/human-safety-command-center.ts:77-82 | over every run without a load or selection after a request error, an action becomes possible again if and only if a staleness refresh came at most staleAfterMs after the data arrived |
| CommandCenterSession.PossibleAfterRequestError | apps/operations-dashboard/src/human-safety-command-center.ts:101-184 | at a later point, nothing having been loaded, selected or done, an action is possible if and only if the case permits it and the last refresh was in time |
| CommandCenterSession.RepaintForgetsRequestError | apps/operations-dashboard/src/human-safety-browser.ts:25-26 | after a load, a selection, a takeover refused with a request error and a repaint, the takeover is possible again if and only if the repaint came within the limit |
| CommandCenterSession.CanMeans | apps/operations-dashboard/src/human-safety-command-center.ts:101-124 | what each action takes of the case, the data and the roles |
| CommandCenterSession.AuthorizableMayBeResolved | apps/operations-dashboard/src/human-safety-command-center.ts:119-124 | where an authorization of a resolution is possible, the state machine allows the resolution of a case without high risk to the same people in the same circumstances |
| CommandCenterController.HumanSafetyCommandCenterController.Act | apps/operations-dashboard/src/human-safety-command-center.ts:126-184 | performs the action step: it succeeds only when permitted, and a request error marks the data as stale |
| CommandCenterController.HumanSafetyCommandCenterController.RefreshStaleness | apps/operations-dashboard/src/human-safety-command-center.ts:77-82 | staleness becomes what the age of the data says, whatever it was |
| CommandCenterController.HumanSafetyCommandCenterController.Load | apps/operations-dashboard/src/human-safety-command-center.ts:56-63 | a loaded page replaces the cases and their time, keeps the selection if it is still there and ends staleness; a failure changes only the phase |
| CommandCenterController.HumanSafetyCommandCenterController.Select | apps/operations-dashboard/src/human-safety-command-center.ts:65-73 | a fetched case is selected and replaced in the list, and makes the data count as fresh |
| CommandCenterSession.ReplaceKeepsIds | apps/operations-dashboard/src/human-safety-command-center.ts:232 | replacing a case by its update keeps ids distinct and touches no other case |

## Left out

- Trimming of identifiers and texts, UUID and other regular expressions, and locale comparison: identifiers are taken as already valid and compared by code unit.
- HTTP, servers, configuration, rendering, object-storage and database clients, key fetching and cryptography: no invariant of the protocols lives there.
- Outbox: the order of RETURNING rows (a claim returns a set), metrics callbacks, and the broker, whose answer may be anything; each SQL statement is atomic on one monotone database clock.
- Retry jitter and confidences are real numbers; floating-point rounding is not modelled.
- Field companion: calls are awaited one after another, with crashes as the only interruption; language, reply, device sharing and takeover calls appear in runs as enqueue, change and persist; device metadata other than the network state, status texts and the requests of the HTTP gateway are left out; in runs new operations carry fresh keys.
- Partner delivery: `projectMinimumNecessary` (a projection is an opaque string) and `status`, which only reads.
- Road events: objects are values, since the repository stores and returns clones; coordinates are reals; role permissions, scope derivation and signal attachment are left out.
- Idempotent execution: the process ending loses the in-memory adapter altogether, so crashes are not modelled; a derived scope is represented by its fixed length.
- Perception: Date.parse is taken as a function of the text, and a cohort's key as the pair of source and text; the observation fields that are checked on their own (schema, blank ids, ranges, digests, provenance) are one flag; the environment, sensor health digest and state digest are left out because their sort keys can tie; class names are compared in upper case already; an observation's tracks are taken with the kinematic state as one value.
- EvidenceAssurance.OrderDoesNotMatter: does not cover permuting observations of which two have one id, because the first of them wins.
- Canonical JSON: numbers are integers in the safe range; non-finite numbers (which print as null), fractions and exponents are left out.
- Human safety: the shape checks of a signal envelope are four flags, in the order in which they are made; audit texts and reason codes are left out; how an allowed transition is stored is not part of this repository's code, so runs apply it and raise the version.
- Replay window: digests are the tokens themselves, so the checks on digest format cannot fail.
- Evidence: the status SCANNING, which no code writes; file names, trace ids, signed URLs and the retention lock; a signed request is granted or not.
- Command center: calls are awaited one after another; one clock reading serves a whole view, openedAt is a timestamp, and texts, metrics and contact details are left out.
